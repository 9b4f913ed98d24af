/**
 The right-to-left scan of `X-Forwarded-For` (`forwardedFor`): which entry of the combined header
 lines is handed to the IP parser.
 */
module ForwardedFor {
  import opened Text

  /** The comma-separated entries of a header value; there is always at least one. */
  function Entries(s: string): (es: seq<string>)
    ensures es != []
  {
    var i := IndexOf(s, ',');
    if i == |s| then [s] else [s[..i]] + Entries(s[i + 1..])
  }

  function TrimLeft(s: string): string {
    if s != "" && s[0] == ' ' then TrimLeft(s[1..]) else s
  }

  /** Header lines combined into one value. */
  function Combined(lines: seq<string>): string {
    if lines == [] then "" else if |lines| == 1 then lines[0] else lines[0] + ", " + Combined(lines[1..])
  }

  /**
   Index of the entry the scan stops at for forward limit `k`. A value that starts with a comma is
   never cut down to its empty first entry.
   */
  function Stop(s: string, k: nat): (i: nat)
    requires k > 0
    ensures i < |Entries(s)|
  {
    var n := |Entries(s)|;
    if k < n then n - k else if s != "" && s[0] == ',' then LeadingComma(s); 1 else 0
  }

  lemma {:induction false} LeadingComma(s: string)
    requires s != "" && s[0] == ','
    ensures Entries(s) == [""] + Entries(s[1..])
  {
    assert s[..0] == "" && IndexOf(s, ',') == 0;
  }

  /** The text handed to the IP parser; None when there is nothing to parse. */
  function Parsed(lines: seq<string>, limit: int): Option<string> {
    var s := Combined(lines);
    if s == "" then None
    else if limit <= 0 then Some(TrimLeft(s))
    else Some(TrimLeft(Entries(s)[Stop(s, limit)]))
  }

  // ----- splitting from the right -----------------------------------------------------------------

  /** Cutting at a comma cuts the list of entries. */
  lemma {:induction false} EntriesConcat(a: string, b: string)
    ensures Entries(a + "," + b) == Entries(a) + Entries(b)
  {
    var i := IndexOf(a, ',');
    if i == |a| {
      assert a[..i] == a;
      FirstEntry(a, b);
    } else {
      var first, rest := a[..i], a[i + 1..];
      CommaAt(a, i, b);
      FirstEntry(first, rest + "," + b);
      FirstEntry(first, rest);
      EntriesConcat(rest, b);
      Assoc([first], Entries(rest), Entries(b));
    }
  }

  lemma {:induction false} CommaAt(a: string, i: nat, b: string)
    requires i < |a| && a[i] == ','
    ensures a == a[..i] + "," + a[i + 1..] && a + "," + b == a[..i] + "," + (a[i + 1..] + "," + b)
  {
  }

  lemma {:induction false} FirstEntry(a: string, b: string)
    requires ',' !in a
    ensures Entries(a + "," + b) == [a] + Entries(b)
    ensures Entries(a) == [a]
  {
    IndexOfFirst(a, b);
    var s := a + "," + b;
    assert s[..|a|] == a && s[|a| + 1..] == b;
  }

  lemma {:induction false} IndexOfFirst(a: string, b: string)
    requires ',' !in a
    ensures IndexOf(a + "," + b, ',') == |a|
  {
    if a != "" {
      assert (a + "," + b)[1..] == a[1..] + "," + b;
      IndexOfFirst(a[1..], b);
    }
  }

  /** Position of the last comma, or -1. */
  method LastComma(s: string) returns (p: int)
    ensures -1 <= p < |s| && (p >= 0 ==> s[p] == ',') && ',' !in s[p + 1..]
  {
    p := |s| - 1;
    while p >= 0 && s[p] != ','
      invariant -1 <= p < |s| && ',' !in s[p + 1..]
    {
      assert s[p..] == [s[p]] + s[p + 1..];
      p := p - 1;
    }
  }

  lemma {:induction false} SplitLast(s: string, p: nat)
    requires p < |s| && s[p] == ',' && ',' !in s[p + 1..]
    ensures Entries(s) == Entries(s[..p]) + [s[p + 1..]]
  {
    assert s == s[..p] + "," + s[p + 1..];
    EntriesConcat(s[..p], s[p + 1..]);
  }

  // ----- the scan -----------------------------------------------------------------------------------

  method CombineLines(values: seq<string>) returns (s: string)
    requires values != []
    ensures s == Combined(values)
  {
    if |values| == 1 {
      return values[0];
    }
    s := "";
    for i := 0 to |values|
      invariant i == 0 ==> s == ""
      invariant i > 0 ==> Combined(values) == if i == |values| then s else s + ", " + Combined(values[i..])
    {
      if i > 0 {
        s := s + ", ";
      }
      s := s + values[i];
      assert values[i..][1..] == values[i + 1..];
      assert i + 1 < |values| ==> Combined(values[i..]) == values[i] + ", " + Combined(values[i + 1..]);
      if i == 0 { assert values[0..] == values; }
    }
  }

  method SkipSpaces(s: string, from: nat) returns (p: nat)
    requires from <= |s|
    ensures from <= p <= |s| && TrimLeft(s[from..]) == s[p..]
  {
    p := from;
    while p < |s| && s[p] == ' '
      invariant from <= p <= |s| && TrimLeft(s[from..]) == TrimLeft(s[p..])
    {
      assert s[p..][1..] == s[p + 1..];
      p := p + 1;
    }
  }

  /**
   The scan after `m` commas of `all`: `xff` ends with the entry it has reached, which starts after the
   comma at `comma`; `text` is that entry without leading spaces. A comma at the very front is never
   passed, so later turns find it again.
   */
  ghost predicate Reached(all: string, xff: string, comma: int, text: string, m: nat) {
    var e, n := Entries(all), |Entries(all)|;
    var t := if m < n then m else n - 1;
    && 0 <= comma < |xff| && xff <= all && xff[comma] == ',' && ',' !in xff[comma + 1..]
    && 0 < t && Entries(xff) == e[..n - t + 1] && text == TrimLeft(xff[comma + 1..])
    && (m >= n ==> comma == 0)
  }

  lemma {:induction false} TrimTwice(s: string)
    ensures TrimLeft(TrimLeft(s)) == TrimLeft(s)
  {
    if s != "" && s[0] == ' ' { TrimTwice(s[1..]); }
  }

  lemma {:induction false} ReachedEntry(all: string, xff: string, comma: int, text: string, m: nat)
    requires m > 0 && Reached(all, xff, comma, text, m)
    ensures var n := |Entries(all)|; var t := if m < n then m else n - 1;
      0 <= n - t < n && Entries(all)[n - t] == xff[comma + 1..]
  {
    SplitLast(xff, comma);
    var n := |Entries(all)|;
    var t := if m < n then m else n - 1;
    assert Entries(xff)[n - t] == Entries(all)[n - t];
  }

  /** What the scan has reached after all its turns. */
  lemma {:induction false} ReachedIsStop(all: string, xff: string, comma: int, text: string, m: nat)
    requires m > 0 && Reached(all, xff, comma, text, m)
    ensures TrimLeft(text) == TrimLeft(Entries(all)[Stop(all, m)])
  {
    ReachedEntry(all, xff, comma, text, m);
    TrimTwice(xff[comma + 1..]);
    var n := |Entries(all)|;
    assert m >= n ==> all[0] == xff[0] == ',';
    assert Stop(all, m) == n - (if m < n then m else n - 1);
  }

  /** The text cut before the comma reached. */
  lemma {:induction false} CutBefore(all: string, xff: string, comma: int, text: string, m: nat)
    requires Reached(all, xff, comma, text, m) && comma > 0
    ensures m < |Entries(all)| && Entries(xff[..comma]) == Entries(all)[..|Entries(all)| - m]
  {
    SplitLast(xff, comma);
    var n := |Entries(all)|;
    assert Entries(xff) == Entries(xff[..comma]) + [xff[comma + 1..]];
    assert Entries(xff[..comma]) == Entries(xff)[..n - m];
  }

  /** The text a turn searches: all entries but the last `m`, or the entry after a comma at the very front. */
  ghost predicate Ready(all: string, xff: string, m: nat, front: bool, text: string) {
    && xff != "" && xff <= all
    && if front then Reached(all, xff, 0, text, m) && m > 0
       else m < |Entries(all)| && Entries(xff) == Entries(all)[..|Entries(all)| - m]
  }

  /** Cut the text at the comma reached before. */
  method CutText(text: string, p: nat, c: nat, ghost all: string, ghost m: nat) returns (xff: string)
    requires c <= p <= |text| && text != ""
    requires if m == 0 then p == c == 0 && text == all else Reached(all, text, p - c, text[p..], m)
    ensures Ready(all, xff, m, m > 0 && p == c, text[p..])
  {
    xff := text;
    if p - c > 0 {
      CutBefore(all, text, p - c, text[p..], m);
      xff := text[..p - c];
    }
    assert Entries(all)[..|Entries(all)|] == Entries(all);
  }

  /** The scan after `m` turns: at a comma, or (`last`) at the entry it stops at. */
  ghost predicate Turned(all: string, xff: string, p: nat, c: nat, m: nat, limit: nat, last: bool)
    requires limit > 0
  {
    && c <= p <= |xff| && xff != ""
    && if last then TrimLeft(xff[p..]) == TrimLeft(Entries(all)[Stop(all, limit)])
       else if m == 0 then p == c == 0 && xff == all
       else Reached(all, xff, p - c, xff[p..], m)
  }

  lemma {:induction false} CommaFound(all: string, xff: string, comma: nat, m: nat, front: bool, text: string)
    requires Ready(all, xff, m, front, text) && comma < |xff| && xff[comma] == ',' && ',' !in xff[comma + 1..]
    ensures Reached(all, xff, comma, TrimLeft(xff[comma + 1..]), m + 1)
  {
  }

  lemma {:induction false} TurnEnds(all: string, xff: string, m: nat, limit: nat, front: bool, text: string)
    requires m < limit && ',' !in xff && Ready(all, xff, m, front, text)
    ensures Turned(all, xff, 0, 0, m + 1, limit, true)
  {
    assert xff[0..] == xff;
  }

  lemma {:induction false} TurnGoesOn(all: string, xff: string, comma: nat, p: nat, m: nat, limit: nat)
    requires m < limit && comma < p <= |xff| && xff[p..] == TrimLeft(xff[comma + 1..])
    requires Reached(all, xff, comma, TrimLeft(xff[comma + 1..]), m + 1)
    ensures Turned(all, xff, p, p - comma, m + 1, limit, false)
  {
  }

  /** One turn of the scan: cut at the comma reached before, then look for the next one from the right. */
  method Turn(text: string, p: nat, c: nat, ghost all: string, ghost m: nat, ghost limit: nat)
    returns (xff: string, p': nat, c': nat, last: bool)
    requires m < limit && Turned(all, text, p, c, m, limit, false)
    ensures Turned(all, xff, p', c', m + 1, limit, last)
  {
    xff := CutText(text, p, c, all, m);
    var comma := LastComma(xff);
    if comma < 0 {
      TurnEnds(all, xff, m, limit, m > 0 && p == c, text[p..]);
      return xff, 0, 0, true;
    }
    CommaFound(all, xff, comma, m, m > 0 && p == c, text[p..]);
    p' := SkipSpaces(xff, comma + 1);
    c' := p' - comma;
    last := false;
    TurnGoesOn(all, xff, comma, p', m, limit);
  }

  /** All turns of the scan over `all`. */
  method Scan(all: string, limit: nat) returns (xff: string, p: nat)
    requires all != "" && limit > 0
    ensures p <= |xff| && TrimLeft(xff[p..]) == TrimLeft(Entries(all)[Stop(all, limit)])
  {
    var c: nat, i: nat, last: bool := 0, limit, false;
    xff, p := all, 0;
    ghost var m: nat := 0;
    while i > 0 && !last
      invariant m + i == limit && Turned(all, xff, p, c, m, limit, last)
      decreases i
    {
      xff, p, c, last := Turn(xff, p, c, all, m, limit);
      i, m := i - 1, m + 1;
    }
    ScanEnds(all, xff, p, c, m, limit, last);
  }

  lemma {:induction false} ScanEnds(all: string, xff: string, p: nat, c: nat, m: nat, limit: nat, last: bool)
    requires limit > 0 && Turned(all, xff, p, c, m, limit, last) && (last || m == limit)
    ensures p <= |xff| && TrimLeft(xff[p..]) == TrimLeft(Entries(all)[Stop(all, limit)])
  {
    if !last { ReachedIsStop(all, xff, p - c, xff[p..], limit); }
  }

  method ForwardedFor(values: seq<string>, limit: int) returns (r: Option<string>)
    ensures r == Parsed(values, limit)
  {
    if |values| == 0 {
      return None;
    }
    var xff := CombineLines(values);
    if |xff| == 0 {
      return None;
    }
    var p := 0;
    if limit > 0 {
      xff, p := Scan(xff, limit);
    } else {
      assert xff[0..] == xff;
    }
    p := SkipSpaces(xff, p);
    return Some(xff[p..]);
  }

  // ----- which entry that is ---------------------------------------------------------------------------

  /** The min(k, n)-th of `n` entries, counted from the right. */
  function FromRight(es: seq<string>, k: nat): string
    requires es != [] && k > 0
  {
    es[if k < |es| then |es| - k else 0]
  }

  /**
   For forward limit `k >= 1` the parser is handed the min(k, n)-th of the `n` entries from the right,
   without leading spaces, exactly when the value does not start with a comma, or fewer hops are
   trusted than there are entries, or the second entry is blank like the first.
   */
  lemma {:induction false} EntrySelected(lines: seq<string>, k: nat)
    requires k > 0 && Combined(lines) != ""
    ensures var s := Combined(lines); var es := Entries(s);
      Parsed(lines, k) == Some(TrimLeft(FromRight(es, k))) <==>
        s[0] != ',' || k < |es| || TrimLeft(es[1]) == ""
  {
    var s := Combined(lines);
    if s[0] == ',' {
      LeadingComma(s);
      assert Entries(s)[0] == "";
    }
  }

  /** A leading comma with a large limit: the empty first entry is skipped. */
  lemma {:induction false} LeadingCommaMisses()
    ensures Parsed([",a"], 2) == Some("a") && TrimLeft(FromRight(Entries(",a"), 2)) == ""
  {
    LeadingComma(",a");
    assert ",a"[1..] == "a";
  }

  /** All entries, without leading spaces. */
  function Trimmed(es: seq<string>): (r: seq<string>)
    ensures |r| == |es| && forall i :: 0 <= i < |es| ==> r[i] == TrimLeft(es[i])
  {
    seq(|es|, i requires 0 <= i < |es| => TrimLeft(es[i]))
  }

  /** The entries of separate header lines, in order. */
  function EntriesOf(lines: seq<string>): seq<string> {
    if lines == [] then [] else Entries(lines[0]) + EntriesOf(lines[1..])
  }

  lemma {:induction false} SpaceBefore(s: string)
    ensures Trimmed(Entries(" " + s)) == Trimmed(Entries(s))
  {
    var t, i := " " + s, IndexOf(s, ',');
    assert t[1..] == s;
    assert IndexOf(t, ',') == i + 1;
    assert t[..i + 1] == " " + s[..i] && (" " + s[..i])[1..] == s[..i];
    if i < |s| { assert t[i + 2..] == s[i + 1..]; }
  }

  /**
   Combining header lines keeps their entries: what counts is the list they form together
   (section 5.3 of RFC 9110).
   */
  lemma {:induction false} LinesFormOneList(lines: seq<string>)
    requires lines != []
    ensures Trimmed(Entries(Combined(lines))) == Trimmed(EntriesOf(lines))
  {
    if |lines| == 1 {
      assert EntriesOf(lines[1..]) == [];
    } else {
      var rest := Combined(lines[1..]);
      assert lines[0] + ", " + rest == lines[0] + "," + (" " + rest);
      EntriesConcat(lines[0], " " + rest);
      SpaceBefore(rest);
      LinesFormOneList(lines[1..]);
      TrimmedConcat(Entries(lines[0]), Entries(" " + rest));
      TrimmedConcat(Entries(lines[0]), EntriesOf(lines[1..]));
    }
  }

  lemma {:induction false} TrimmedConcat(a: seq<string>, b: seq<string>)
    ensures Trimmed(a + b) == Trimmed(a) + Trimmed(b)
  {
  }
}
