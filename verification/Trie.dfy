/**
 The radix tree as a value, and what each tree operation computes on it. The heap model
 (module `Radix`) is proved to compute exactly these functions; what the router promises
 is proved about them in the modules that follow.
 */
module Trie {
  import opened Text
  import opened WildPath

  /** A request handler: one known by its identity, or one wrapped in a middleware, which is entered first. */
  datatype Handler = Serve(id: nat) | Enter(middleware: nat, next: Handler)

  /** The `{name:*}` attached to a node. */
  datatype WildNode = WildNode(path: string, key: string, handler: Handler)

  datatype Trie = Trie(
    kind: NodeType, path: string, tsr: bool, handler: Option<Handler>, kids: seq<Trie>,
    wildcard: Option<WildNode>, keys: seq<string>)

  function NewNode(path: string): Trie {
    Trie(Static, path, false, None, [], None, [])
  }

  /** A bare "/" child that only recommends dropping the slash. */
  const MARKER: Trie := NewNode("/").(tsr := true)

  /** The storage `radix.New` returns: a root without text. */
  const EMPTY: Trie := NewNode("").(kind := Root)

  datatype AddError =
    | HandlerExists | WildcardHandlerExists
    | WildPathConflict | WildcardConflict | WildcardWithoutSlash | WildcardNotAtEnd
    | BadPattern          // findWildPath panics
    | OutsideModel        // a regular expression would be compiled

  /** Tree after an operation, the error it reports, and the child indices leading to the node it returns. */
  datatype Outcome = Outcome(node: Trie, err: Option<AddError>, at: Option<seq<nat>>)

  function Fail(n: Trie, e: AddError): Outcome { Outcome(n, Some(e), None) }

  /** The outcome of an operation on child `k`, seen from its parent. */
  function Under(n: Trie, k: nat, r: Outcome): Outcome
    requires k < |n.kids|
  {
    Outcome(n.(kids := n.kids[k := r.node]), r.err,
            match r.at case None => None case Some(t) => Some([k] + t))
  }

  /** Cut a node's text at `i`; everything it carried moves to a single static child. */
  function Split(n: Trie, i: nat): Trie
    requires i <= |n.path|
  {
    n.(path := n.path[..i], handler := None, tsr := false, wildcard := None,
       kids := [n.(kind := Static, path := n.path[i..], keys := [])])
  }

  function FirstSlash(kids: seq<Trie>): (k: nat)
    ensures k <= |kids|
    ensures k < |kids| ==> kids[k].path == "/"
    ensures forall j :: 0 <= j < k ==> kids[j].path != "/"
  {
    if kids == [] || kids[0].path == "/" then 0 else 1 + FirstSlash(kids[1..])
  }

  /** Mark the "/" child as slash recommendation, adding a bare one when there is none. */
  function MarkSlash(n: Trie): Trie {
    var k := FirstSlash(n.kids);
    if k < |n.kids| then n.(kids := n.kids[k := n.kids[k].(tsr := true)])
    else if n.path != "/" then n.(kids := n.kids + [MARKER])
    else n
  }

  function SetHandler(n: Trie, h: Handler): Outcome {
    if n.handler.Some? || n.tsr then Outcome(n, Some(HandlerExists), Some([]))
    else Outcome(MarkSlash(n.(handler := Some(h))), None, Some([]))
  }

  /** The last step of `insert`: hang a node with the handler under `n` and set the slash marks around it. */
  function Attach(n: Trie, leaf: Trie, h: Handler): Outcome {
    var child := leaf.(handler := Some(h));
    var last := |child.path| - 1;
    if child.path == "/" then
      Outcome(n.(kids := n.kids + [child], tsr := true), None, Some([|n.kids|]))
    else if child.path != "" && child.path[last] == '/' then
      Outcome(n.(kids := n.kids + [Split(child, last).(tsr := true)]), None, Some([|n.kids|]))
    else
      Outcome(n.(kids := n.kids + [child.(kids := child.kids + [MARKER])]), None, Some([|n.kids|]))
  }

  function AttachWildcard(n: Trie, path: string, wp: WildPath, h: Handler): Outcome
    requires |wp.keys| > 0
  {
    if n.wildcard.Some? then
      if n.wildcard.value.path == path then Outcome(n, Some(WildcardHandlerExists), Some([]))
      else Fail(n, WildcardConflict)
    else Outcome(n.(wildcard := Some(WildNode(wp.path, wp.keys[0], h))), None, Some([]))
  }

  /** The wildcard branch of `insert`: text ending in a slash is first cut before it. */
  function InsertWildcard(n: Trie, path: string, wp: WildPath, h: Handler): Outcome
    requires |wp.keys| > 0
  {
    var end := SegmentEnd(path, true);
    if |path| != end then Fail(n, WildcardNotAtEnd)
    else if n.path == "" then Fail(n, BadPattern)
    else if n.path[|n.path| - 1] != '/' then Fail(n, WildcardWithoutSlash)
    else if n.path != "/" then
      var cut := Split(n, |n.path| - 1).(tsr := true);
      Under(cut, 0, AttachWildcard(cut.kids[0], path, wp, h))
    else AttachWildcard(n, path, wp, h)
  }

  function Insert(n: Trie, path: string, h: Handler): Outcome
    decreases |path|
  {
    match FindWild(path)
    case Panics(_) => Fail(n, BadPattern)
    case NoWild => Attach(n, NewNode(path), h)
    case Wild(wp) =>
      if wp.regex.Some? || wp.keys == [] then Fail(n, OutsideModel)
      else if wp.start > 0 then
        var child := NewNode(path[..wp.start]);
        Under(n.(kids := n.kids + [child]), |n.kids|, Insert(child, path[wp.start..], h))
      else if wp.pType == Wildcard then InsertWildcard(n, path, wp, h)
      else
        var child := NewNode(path[..SegmentEnd(path, true)]).(kind := Param, keys := wp.keys);
        if wp.end < |path| then
          Under(n.(kids := n.kids + [child]), |n.kids|, Insert(child, path[wp.end..], h))
        else Attach(n, child, h)
  }

  /** The child `add` descends into: the first one sharing a prefix with `path`. */
  function FirstShared(kids: seq<Trie>, path: string): (k: nat)
    ensures k <= |kids|
    ensures k < |kids| ==> Lcp(path, kids[k].path) > 0
    ensures forall j :: 0 <= j < k ==> Lcp(path, kids[j].path) == 0
  {
    if kids == [] || Lcp(path, kids[0].path) > 0 then 0 else 1 + FirstShared(kids[1..], path)
  }

  /** The tail of `add`'s loop body: the whole text is used up at child `k`. */
  function SetAtChild(n: Trie, k: nat, path: string, h: Handler): Outcome
    requires k < |n.kids|
  {
    var marked := if path == "/" then n.(tsr := true) else n;
    Under(marked, k, SetHandler(n.kids[k], h))
  }

  function AddAtParam(n: Trie, k: nat, path: string, h: Handler): Outcome
    requires k < |n.kids| && Lcp(path, n.kids[k].path) > 0
    decreases |path|, 0
  {
    var child, i := n.kids[k], Lcp(path, n.kids[k].path);
    match FindWild(path)
    case Panics(_) => Fail(n, BadPattern)
    case NoWild => Fail(n, BadPattern)
    case Wild(wp) =>
      if wp.regex.Some? then Fail(n, OutsideModel)
      else if |path| == wp.end && wp.start == 0 && wp.pType == Param && child.handler.Some? then
        if child.path == path then Outcome(n, Some(HandlerExists), Some([k])) else Fail(n, WildPathConflict)
      else if |path| > i then
        if child.path == wp.path then Under(n, k, Add(child, path[i..], h)) else Insert(n, path, h)
      else SetAtChild(n, k, path, h)
  }

  function Add(n: Trie, path: string, h: Handler): Outcome
    decreases |path|, 1
  {
    if path == "" then SetHandler(n, h)
    else
      var k := FirstShared(n.kids, path);
      if k == |n.kids| then Insert(n, path, h)
      else
        var child, i := n.kids[k], Lcp(path, n.kids[k].path);
        match child.kind
        case Param => AddAtParam(n, k, path, h)
        case Static =>
          var cut := if |child.path| > i then Split(child, i) else child;
          var n1 := n.(kids := n.kids[k := cut]);
          if |path| > i then Under(n1, k, Add(cut, path[i..], h)) else SetAtChild(n1, k, path, h)
        case _ => SetAtChild(n, k, path, h)
  }

  // ----- Tree.Add ----------------------------------------------------------------------

  /** Root split and `add`, before errors are looked at. */
  function AddAtRoot(root: Trie, path: string, h: Handler): Outcome {
    var i := Lcp(path, root.path);
    var cut := if 0 < i < |root.path| then Split(root, i) else root;
    Add(cut, path[i..], h)
  }

  function NodeAt(n: Trie, at: seq<nat>): Option<Trie> {
    if at == [] then Some(n) else if at[0] < |n.kids| then NodeAt(n.kids[at[0]], at[1..]) else None
  }

  /** The tree with the node at `at` replaced by `m`. */
  function Replace(n: Trie, at: seq<nat>, m: Trie): Trie {
    if at == [] then m
    else if at[0] < |n.kids| then n.(kids := n.kids[at[0] := Replace(n.kids[at[0]], at[1..], m)])
    else n
  }

  function Rehandled(n: Trie, e: AddError, h: Handler): Trie {
    if e == HandlerExists then n.(handler := Some(h))
    else match n.wildcard case None => n case Some(w) => n.(wildcard := Some(w.(handler := h)))
  }

  /** In a mutable tree, "already registered" at an unmarked node overwrites its handler. */
  predicate Overrides(r: Outcome, mutable: bool) {
    && mutable
    && (r.err == Some(HandlerExists) || r.err == Some(WildcardHandlerExists))
    && r.at.Some? && NodeAt(r.node, r.at.value).Some? && !NodeAt(r.node, r.at.value).value.tsr
  }

  /** After the first route the text-less root gives way to its only child. */
  function Promote(root: Trie): Trie {
    if root.path == "" && root.kids != [] then root.kids[0].(kind := Root) else root
  }

  // ----- sort --------------------------------------------------------------------------

  function Rank(t: NodeType): nat {
    match t case Root => 0 case Static => 1 case Param => 2 case Wildcard => 3
  }

  predicate Less(a: Trie, b: Trie) {
    Rank(a.kind) < Rank(b.kind) || (a.kind == b.kind && |a.kids| > |b.kids|)
  }

  predicate Ordered(kids: seq<Trie>) {
    forall i, j :: 0 <= i < j < |kids| ==> !Less(kids[j], kids[i])
  }

  /** Every level of the tree is ordered. */
  predicate Sorted(n: Trie) {
    Ordered(n.kids) && forall i :: 0 <= i < |n.kids| ==> Sorted(n.kids[i])
  }

  /** `b` is `a` with its subtrees sorted in any way `sort.Sort` may choose, which need not be stable. */
  ghost predicate SortsTo(a: Trie, b: Trie)
    decreases a, 1
  {
    && b == a.(kids := b.kids)
    && Ordered(b.kids)
    && exists mid: seq<Trie> :: SortsEach(a, mid) && multiset(mid) == multiset(b.kids)
  }

  ghost predicate SortsEach(a: Trie, mid: seq<Trie>)
    decreases a, 0
  {
    |mid| == |a.kids| && forall i :: 0 <= i < |mid| ==> SortsTo(a.kids[i], mid[i])
  }

  /** One call of `Tree.Add`; `ok` is false when it panics. */
  ghost predicate AddStep(root: Trie, mutable: bool, path: string, h: Handler, root': Trie, ok: bool) {
    var r := AddAtRoot(root, path, h);
    if path == "" || path[0] != '/' then !ok && root' == root
    else if r.err == None then ok && SortsTo(Promote(r.node), root')
    else if Overrides(r, mutable) then
      ok && root' == Replace(r.node, r.at.value, Rehandled(NodeAt(r.node, r.at.value).value, r.err.value, h))
    else !ok && root' == r.node
  }

  // ----- lookups -----------------------------------------------------------------------

  /** Nodes as lookups need them: static children with text, parameters with one key. */
  predicate Searchable(n: Trie) {
    forall i :: 0 <= i < |n.kids| ==>
      var c := n.kids[i];
      Searchable(c) && ((c.kind == Static && c.path != "") || (c.kind == Param && |c.keys| == 1))
  }

  /** Handler found, slash recommendation, and the user values written, in order. */
  datatype Found = Found(handler: Option<Handler>, tsr: bool, writes: seq<(string, string)>)

  /** User values after a list of writes; a later write to the same name wins. */
  function Written(values: map<string, string>, writes: seq<(string, string)>): map<string, string>
    decreases |writes|
  {
    if writes == [] then values else Written(values[writes[0].0 := writes[0].1], writes[1..])
  }

  lemma {:induction false} WrittenConcat(m: map<string, string>, a: seq<(string, string)>, b: seq<(string, string)>)
    ensures Written(m, a + b) == Written(Written(m, a), b)
    decreases |a|
  {
    if a == [] {
      assert a + b == b;
    } else {
      assert (a + b)[0] == a[0] && (a + b)[1..] == a[1..] + b;
      WrittenConcat(m[a[0].0 := a[0].1], a[1..], b);
    }
  }

  const MISS := Found(None, false, [])

  /** A node whose text is used up: mark, handler, then wildcard with an empty value. */
  function AtEnd(n: Trie): Found {
    if n.tsr then Found(None, true, [])
    else if n.handler.Some? then Found(n.handler, false, [])
    else match n.wildcard
      case Some(w) => Found(Some(w.handler), false, [(w.key, "")])
      case None => MISS
  }

  function GetFromChild(n: Trie, path: string): Found
    requires Searchable(n) && path != ""
    decreases n, |n.kids| + 1
  {
    GetFrom(n, 0, path)
  }

  /** The loop of `getFromChild` from child `k` on; a child that does not settle the search is passed over. */
  function GetFrom(n: Trie, k: nat, path: string): Found
    requires Searchable(n) && path != "" && k <= |n.kids|
    decreases n, |n.kids| - k
  {
    if k == |n.kids| then
      match n.wildcard
      case Some(w) => Found(Some(w.handler), false, [(w.key, path)])
      case None => MISS
    else
      var c := n.kids[k];
      if c.kind == Static then
        if path == c.path then AtEnd(c)
        else if c.path < path then
          var r := GetFromChild(c, path[|c.path|..]);
          if r.handler.Some? || r.tsr then r else GetFrom(n, k + 1, path)
        else GetFrom(n, k + 1, path)
      else
        var end := SegmentEnd(path, false);
        if end < |path| then
          var r := GetFromChild(c, path[end..]);
          if r.tsr then Found(None, true, [])
          else if r.handler.Some? then r.(writes := r.writes + [(c.keys[0], path[..end])])
          else GetFrom(n, k + 1, path)
        else if c.tsr then Found(None, true, [])
        else if c.handler.None? then GetFrom(n, k + 1, path)
        else Found(c.handler, false, [(c.keys[0], path)])
  }

  function Get(root: Trie, path: string): Found
    requires Searchable(root)
  {
    if path == root.path then AtEnd(root)
    else if root.path < path then GetFromChild(root, path[|root.path|..])
    else MISS
  }

  /** Nothing is written unless a handler is returned. */
  lemma {:induction false} NoStrayWrites(n: Trie, k: nat, path: string)
    requires Searchable(n) && path != "" && k <= |n.kids|
    ensures var g := GetFrom(n, k, path);
      (g.handler == None ==> g.writes == []) && (g.tsr ==> g.handler == None)
    decreases n, |n.kids| - k
  {
    if k < |n.kids| {
      var c, end := n.kids[k], SegmentEnd(path, false);
      NoStrayWrites(n, k + 1, path);
      if c.kind == Static && c.path < path { NoStrayWrites(c, 0, path[|c.path|..]); }
      if c.kind == Param && end < |path| { NoStrayWrites(c, 0, path[end..]); }
    }
  }

  /** Text a case-insensitive search appends, and whether it fixed a trailing slash. */
  datatype Fixed = NotFound | Fixed(text: string, tsr: bool)

  function Find(n: Trie, path: string): Fixed
    requires Searchable(n)
    decreases n, |n.kids| + 2
  {
    if |path| > |n.path| then
      if !EqualFold(path[..|n.path|], n.path) then NotFound
      else
        match FindFromChild(n, path[|n.path|..])
        case Fixed(t, tsr) => Fixed(n.path + t, tsr)
        case NotFound => NotFound
    else if EqualFold(path, n.path) then
      if n.tsr then Fixed(if n.path == "/" then "" else n.path + "/", true)
      else if n.handler.Some? then Fixed(n.path, false)
      else NotFound
    else NotFound
  }

  function FindFromChild(n: Trie, path: string): Fixed
    requires Searchable(n) && path != ""
    decreases n, |n.kids| + 1
  {
    FindFrom(n, 0, path)
  }

  function FindFrom(n: Trie, k: nat, path: string): Fixed
    requires Searchable(n) && path != "" && k <= |n.kids|
    decreases n, |n.kids| - k
  {
    if k == |n.kids| then
      if n.wildcard.Some? then Fixed(path, false) else NotFound
    else
      var c := n.kids[k];
      if c.kind == Static then
        match Find(c, path)
        case Fixed(t, tsr) => Fixed(t, tsr)
        case NotFound => FindFrom(n, k + 1, path)
      else
        var end := SegmentEnd(path, false);
        if end < |path| then
          match FindFromChild(c, path[end..])
          case Fixed(t, tsr) => Fixed(path[..end] + t, tsr)
          case NotFound => FindFrom(n, k + 1, path)
        else if c.tsr then Fixed(path + "/", true)
        else if c.handler.Some? then Fixed(path, false)
        else FindFrom(n, k + 1, path)
  }
}
