/**
 Model of `findWildPath`: locate the first `{...}` of a pattern, measure it, and classify
 it as a parameter or a wildcard. Composite and regular-expression segments are measured
 too; the text handed to the regular-expression compiler is kept, not interpreted.
 */
module WildPath {
  import opened Text

  datatype NodeType = Root | Static | Param | Wildcard

  datatype WildPath = WildPath(
    path: string, keys: seq<string>, start: nat, end: nat, pType: NodeType,
    pattern: string, regex: Option<string>)

  datatype PatternError = WildcardsTouch | EmptyName | BraceInName

  datatype WildResult = NoWild | Wild(wp: WildPath) | Panics(reason: PatternError)

  datatype Close = ClosedAt(end: nat) | Unclosed | BadBrace

  /** Position just after the brace closing the parameter whose body starts at `pos`. */
  function CloseFrom(path: string, pos: nat, withRegex: bool, keys: nat): (r: Close)
    requires pos <= |path|
    ensures r.ClosedAt? ==> pos < r.end <= |path|
    decreases |path| - pos
  {
    if pos == |path| then Unclosed
    else if path[pos] == '}' then
      if keys > 0 then CloseFrom(path, pos + 1, withRegex, keys - 1) else ClosedAt(pos + 1)
    else if path[pos] == ':' then CloseFrom(path, pos + 1, true, keys)
    else if path[pos] == '{' then
      if !withRegex && keys == 0 then BadBrace else CloseFrom(path, pos + 1, withRegex, keys + 1)
    else CloseFrom(path, pos + 1, withRegex, keys)
  }

  /** The wild path opened at `start` and closed just before `end`, before its segment's tail is joined. */
  function Opening(path: string, start: nat, end: nat): (wp: WildPath)
    requires start + 2 <= end <= |path|
    ensures wp.start == start && wp.end == end && |wp.keys| == 1
  {
    var body := path[start + 1..end - 1];
    var cut := IndexOf(body, ':');
    var base := WildPath(path[start..end], [body], start, end, Param, "", None);
    if cut < |body| then
      if body[cut + 1..] == "*" then base.(keys := [body[..cut]], pattern := "*", pType := Wildcard)
      else
        var pattern := "(" + body[cut + 1..] + ")";
        base.(keys := [body[..cut]], pattern := pattern, regex := Some(pattern))
    else if path[|path| - 1] != '/' then base.(pattern := "(.*)")
    else base
  }

  /** The rest of the segment after a closed parameter; a lone final slash is only counted. */
  function JoinTail(path: string, start: nat, end: nat): (r: WildResult)
    requires start + 2 <= end <= |path|
    ensures r.Wild? ==> r.wp.start == start && end <= r.wp.end <= |path|
    decreases |path|, 0
  {
    var wp := Opening(path, start, end);
    if end < |path| && path[end] == '{' then Panics(WildcardsTouch)
    else if wp.keys[0] == "" then Panics(EmptyName)
    else
      var rest := path[end..end + SegmentEnd(path[end..], true)];
      if rest == "/" then Wild(wp.(end := end + 1))
      else if rest == "" then Wild(wp)
      else
        match FindWild(rest)
        case Panics(reason) => Panics(reason)
        case NoWild =>
          var pattern := wp.pattern + rest;
          Wild(wp.(end := end + |rest|, path := wp.path + rest, pattern := pattern, regex := Some(pattern)))
        case Wild(wp2) =>
          var prefix := rest[..wp2.start];
          var pattern := wp.pattern + prefix + wp2.pattern;
          Wild(wp.(end := end + wp2.end, path := wp.path + prefix + wp2.path, keys := wp.keys + wp2.keys,
                   pattern := pattern, regex := Some(pattern)))
  }

  /** The outer scan: an opening brace that never closes is skipped over. */
  function FindWildFrom(path: string, start: nat): (r: WildResult)
    requires start <= |path|
    ensures r.Wild? ==> start <= r.wp.start < r.wp.end <= |path| && path[r.wp.start] == '{'
    decreases |path|, |path| - start + 1
  {
    if start == |path| then NoWild
    else if path[start] != '{' then FindWildFrom(path, start + 1)
    else
      match CloseFrom(path, start + 1, false, 0)
      case Unclosed => FindWildFrom(path, start + 1)
      case BadBrace => Panics(BraceInName)
      case ClosedAt(end) => JoinTail(path, start, end)
  }

  function FindWild(path: string): (r: WildResult)
    ensures r.Wild? ==> r.wp.start < r.wp.end <= |path| && path[r.wp.start] == '{'
    decreases |path|, |path| + 2
  {
    FindWildFrom(path, 0)
  }

  /** The two nested index loops of `findWildPath`, with its recursion on the segment's tail. */
  method FindWildPath(path: string) returns (r: WildResult)
    ensures r == FindWild(path)
    decreases |path|
  {
    var start := 0;
    while start < |path|
      invariant start <= |path|
      invariant FindWild(path) == FindWildFrom(path, start)
    {
      if path[start] == '{' {
        var withRegex, keys, pos := false, 0, start + 1;
        while pos < |path|
          invariant start < pos <= |path|
          invariant CloseFrom(path, start + 1, false, 0) == CloseFrom(path, pos, withRegex, keys)
        {
          var c := path[pos];
          if c == '}' {
            if keys == 0 {
              r := JoinSegment(path, start, pos + 1);
              return;
            }
            keys := keys - 1;
          } else if c == ':' {
            withRegex := true;
          } else if c == '{' {
            if !withRegex && keys == 0 {
              return Panics(BraceInName);
            }
            keys := keys + 1;
          }
          pos := pos + 1;
        }
      }
      start := start + 1;
    }
    r := NoWild;
  }

  method JoinSegment(path: string, start: nat, end: nat) returns (r: WildResult)
    requires start + 2 <= end <= |path|
    ensures r == JoinTail(path, start, end)
    decreases |path|, 0
  {
    var wp := Opening(path, start, end);
    if |path| > end && path[end] == '{' {
      return Panics(WildcardsTouch);
    }
    if |wp.keys[0]| == 0 {
      return Panics(EmptyName);
    }
    var segEnd := SegmentEndIndex(path[end..], true);
    var rest := path[end..end + segEnd];
    if rest == "/" {
      rest := "";
      wp := wp.(end := wp.end + 1);
    }
    if |rest| > 0 {
      var tail := FindWildPath(rest);
      match tail {
        case Panics(reason) =>
          return Panics(reason);
        case Wild(wp2) =>
          var prefix := rest[..wp2.start];
          wp := wp.(end := wp.end + wp2.end, path := wp.path + prefix + wp2.path,
                    pattern := wp.pattern + prefix + wp2.pattern, keys := wp.keys + wp2.keys);
        case NoWild =>
          wp := wp.(path := wp.path + rest, pattern := wp.pattern + rest, end := wp.end + |rest|);
      }
      wp := wp.(regex := Some(wp.pattern));
    }
    r := Wild(wp);
  }
}
