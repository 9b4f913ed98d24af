/**
 What the router answers to a request: the handler of the method's tree or of the any-method tree, a
 redirect, an automatic OPTIONS answer, "method not allowed" with its Allow list, or "not found".
 */
module Dispatch {
  import opened Text
  import opened Trie
  import opened AllowList
  import StaticMap
  import opened RouteTable
  import Redirect
  import Conservation

  datatype Options = Options(redirect: Redirect.Options, handleOptions: bool, handleMethodNotAllowed: bool)

  /**
   `path` is the path as sent, `normalized` the HTTP library's normal form of it; `badContent` tells
   that the request has content without a media type.
   */
  datatype Request = Request(verb: string, path: string, normalized: string, badContent: bool)

  datatype Answer =
    | Served(handler: Handler)
    | InvalidQuery
    | Redirected(code: nat, target: string)
    | Methods(allow: string)      // automatic answer to OPTIONS
    | NotAllowed(allow: string)   // 405
    | Missing                     // 404

  ghost predicate AllSearchable(t: Table) {
    forall i :: 0 <= i < |t.trees| && t.trees[i].Some? ==> Searchable(t.trees[i].value)
  }

  lemma {:induction false} GoodIsSearchable(t: Table)
    requires GoodTrees(t)
    ensures AllSearchable(t)
  {
    forall i | 0 <= i < |t.trees| && t.trees[i].Some?
      ensures Searchable(t.trees[i].value)
    {
      Conservation.WellFormedIsSearchable(t.trees[i].value);
    }
  }

  function RedirectCode(verb: string): nat { if verb == "GET" then 301 else 308 }

  /** Looking in one tree: serve, redirect, or go on. */
  function TryTree(root: Trie, req: Request, opts: Options): Option<Answer>
    requires Searchable(root)
  {
    var g := Get(root, req.path);
    if g.handler.Some? then
      Some(if req.verb == "QUERY" && req.badContent then InvalidQuery else Served(g.handler.value))
    else if req.verb != "CONNECT" && req.path != "/" then
      match Redirect.Target(root, g.tsr, req.path, req.normalized, opts.redirect)
      case Some(target) => Some(Redirected(RedirectCode(req.verb), target))
      case None => None
    else None
  }

  /** The tree of a method answers the path with a handler. */
  predicate Serves(t: Table, verb: string, path: string)
    requires TreeOf(t, verb).Some? ==> Searchable(TreeOf(t, verb).value)
  {
    TreeOf(t, verb).Some? && Get(TreeOf(t, verb).value, path).handler.Some?
  }

  lemma {:induction false} TreeIsSearchable(t: Table, verb: string)
    requires AllSearchable(t)
    ensures TreeOf(t, verb).Some? ==> Searchable(TreeOf(t, verb).value)
  {
  }

  /** The other methods, OPTIONS aside, that serve a path. */
  ghost function Others(t: Table, path: string, verb: string): set<string>
    requires AllSearchable(t)
  {
    set m | m in t.registered && m != verb && m != OPTIONS && (TreeIsSearchable(t, m); Serves(t, m, path))
  }

  predicate ServerWide(path: string) { path == "*" || path == "/*" }

  /** `Allowed`: the Allow text for a path, "" when no other method serves it; the cached one for the whole server. */
  ghost function Allowed(t: Table, path: string, verb: string): string
    requires AllSearchable(t)
  {
    if ServerWide(path) then (if verb == "" then AllowText(Listed(t.registered)) else t.globalAllowed)
    else AllowText(Others(t, path, verb))
  }

  ghost function TryMethod(t: Table, verb: string, req: Request, opts: Options): Option<Answer>
    requires AllSearchable(t)
  {
    match TreeOf(t, verb)
    case None => None
    case Some(root) => TreeIsSearchable(t, verb); TryTree(root, req, opts)
  }

  /** The end of `Handler`, when no tree had an answer. */
  ghost function Fallback(t: Table, req: Request, opts: Options): Answer
    requires AllSearchable(t)
  {
    if opts.handleOptions && req.verb == OPTIONS then
      (if Allowed(t, req.path, OPTIONS) != "" then Methods(Allowed(t, req.path, OPTIONS)) else Missing)
    else if opts.handleMethodNotAllowed && Allowed(t, req.path, req.verb) != ""
      then NotAllowed(Allowed(t, req.path, req.verb))
    else Missing
  }

  ghost function Handled(t: Table, req: Request, opts: Options): Answer
    requires AllSearchable(t)
  {
    match TryMethod(t, req.verb, req, opts)
    case Some(a) => a
    case None =>
      match TryMethod(t, WILD, req, opts)
      case Some(a) => a
      case None => Fallback(t, req, opts)
  }

  // ----- what an Allow list says -------------------------------------------------------------------------

  /**
   The Allow list of an answer: in ascending order, OPTIONS once, and exactly the other methods that serve
   the path.
   */
  ghost predicate ListsOthers(t: Table, req: Request, allow: string, l: seq<string>)
    requires AllSearchable(t)
  {
    && allow == Join(l) && Ascending(l) && |l| >= 2 && OPTIONS in l
    && (forall m :: m in l <==> m == OPTIONS || m in Others(t, req.path, req.verb))
    && WILD !in l && (req.verb != OPTIONS ==> req.verb !in l)
  }

  lemma {:induction false} AllowListIs(t: Table, req: Request, l: seq<string>)
    requires AllSearchable(t) && Listing(l, Others(t, req.path, req.verb) + {OPTIONS})
      && Others(t, req.path, req.verb) != {}
    requires WILD !in Others(t, req.path, req.verb)
    ensures ListsOthers(t, req, Join(l), l)
  {
    var others := Others(t, req.path, req.verb);
    var x :| x in others;
    assert x in l && OPTIONS in l;
    var i :| 0 <= i < |l| && l[i] == x;
    var j :| 0 <= j < |l| && l[j] == OPTIONS;
    assert i != j;
  }

  /**
   A 405 or automatic OPTIONS answer for a path is given only when neither the method's tree nor the
   any-method tree has a handler; its Allow list (sections 10.2.1 and 15.5.6 of RFC 9110) is not empty,
   strictly ascending, names OPTIONS once and exactly the other methods that serve the path, never the
   any-method, and never the request's own method unless that is OPTIONS.
   */
  lemma {:induction false} AllowIsExact(t: Table, req: Request, opts: Options) returns (l: seq<string>)
    requires GoodTable(t) && AllSearchable(t) && !ServerWide(req.path)
    requires var a := Handled(t, req, opts); a.Methods? || a.NotAllowed?
    ensures ListsOthers(t, req, Handled(t, req, opts).allow, l)
    ensures TreeOf(t, req.verb).Some? ==> Searchable(TreeOf(t, req.verb).value)
    ensures TreeOf(t, WILD).Some? ==> Searchable(TreeOf(t, WILD).value)
    ensures !Serves(t, req.verb, req.path) && !Serves(t, WILD, req.path)
  {
    TreeIsSearchable(t, req.verb);
    TreeIsSearchable(t, WILD);
    assert TryMethod(t, req.verb, req, opts) == None && TryMethod(t, WILD, req, opts) == None;
    var others := Others(t, req.path, req.verb);
    assert WILD !in others;
    l := TheListing(others + {OPTIONS});
    AllowListIs(t, req, l);
  }

  // ----- chains of redirects -------------------------------------------------------------------------------

  /** The tree of a method, if there is one, holds static routes with doubled slashes covered. */
  ghost predicate HoldsStatic(t: Table, verb: string) {
    TreeOf(t, verb).Some? ==> exists m :: StaticMap.Holds(TreeOf(t, verb).value, m) && Redirect.DoubledPathsCovered(m)
  }

  predicate Final(a: Answer) { a.Served? || a.InvalidQuery? }

  /** The tree of a method redirects a request to a path, which `next` asks for. */
  ghost predicate Redirects(t: Table, verb: string, req: Request, opts: Options, next: Request)
    requires AllSearchable(t)
  {
    var a := TryMethod(t, verb, req, opts); a.Some? && a.value.Redirected? && a.value.target == next.path
  }

  ghost predicate RedirectedBy(t: Table, verb: string, req: Request, opts: Options)
    requires AllSearchable(t)
  {
    TryMethod(t, verb, req, opts).Some? && TryMethod(t, verb, req, opts).value.Redirected?
  }

  ghost predicate Settles(t: Table, verb: string, req: Request, opts: Options)
    requires AllSearchable(t)
  {
    TryMethod(t, verb, req, opts).Some? && Final(TryMethod(t, verb, req, opts).value)
  }

  /** Where the tree of a method redirects to, it has a handler. */
  lemma {:induction false} TargetIsServed(t: Table, verb: string, req: Request, opts: Options, next: Request)
    requires AllSearchable(t) && HoldsStatic(t, verb) && Redirects(t, verb, req, opts, next)
    ensures next.path != req.path && Settles(t, verb, next, opts)
  {
    TreeIsSearchable(t, verb);
    var root := TreeOf(t, verb).value;
    var m :| StaticMap.Holds(root, m) && Redirect.DoubledPathsCovered(m);
    Redirect.HeldRedirectsOnce(root, m, req.path, req.normalized, opts.redirect);
  }

  /** A tree answers with a handler, redirects, or leaves the request to the next one. */
  lemma {:induction false} TreeAnswers(t: Table, verb: string, req: Request, opts: Options)
    requires AllSearchable(t) && TryMethod(t, verb, req, opts).Some?
    ensures var a := TryMethod(t, verb, req, opts).value; Final(a) || a.Redirected?
  {
    TreeIsSearchable(t, verb);
  }

  lemma {:induction false} HandledByTrees(t: Table, req: Request, opts: Options)
    requires AllSearchable(t)
    ensures TryMethod(t, req.verb, req, opts).Some? ==> Handled(t, req, opts) == TryMethod(t, req.verb, req, opts).value
    ensures TryMethod(t, req.verb, req, opts) == None && TryMethod(t, WILD, req, opts).Some? ==>
      Handled(t, req, opts) == TryMethod(t, WILD, req, opts).value
    ensures TryMethod(t, req.verb, req, opts) == None && TryMethod(t, WILD, req, opts) == None ==>
      !Handled(t, req, opts).Redirected?
  {
  }

  /**
   Two trees may redirect, the method's and then the any-method one, when both hold static routes: a request
   redirected by the first is served next, and one redirected by the second is served next or after one more
   redirect, whatever the normal forms of the targets are. So no chain of redirects is longer than two. A
   second redirect comes exactly when the any-method tree redirects the request and the method's tree redirects
   the target.
   */
  lemma {:induction false} RedirectsEnd(t: Table, req: Request, opts: Options, next: Request, last: Request)
    requires AllSearchable(t) && HoldsStatic(t, req.verb) && HoldsStatic(t, WILD)
    requires Handled(t, req, opts).Redirected? && next.path == Handled(t, req, opts).target && next.verb == req.verb
    requires Handled(t, next, opts).Redirected? ==> last.path == Handled(t, next, opts).target && last.verb == req.verb
    ensures next.path != req.path && (TryMethod(t, req.verb, req, opts).Some? ==> Final(Handled(t, next, opts)))
    ensures Final(Handled(t, next, opts)) || (Handled(t, next, opts).Redirected? && Final(Handled(t, last, opts)))
    ensures Handled(t, next, opts).Redirected? <==>
      TryMethod(t, req.verb, req, opts) == None && RedirectedBy(t, req.verb, next, opts)
  {
    HandledByTrees(t, req, opts);
    HandledByTrees(t, next, opts);
    HandledByTrees(t, last, opts);
    if TryMethod(t, req.verb, req, opts).Some? {
      TargetIsServed(t, req.verb, req, opts, next);
    } else {
      TargetIsServed(t, WILD, req, opts, next);
      if TryMethod(t, req.verb, next, opts).Some? {
        TreeAnswers(t, req.verb, next, opts);
        if Handled(t, next, opts).Redirected? { TargetIsServed(t, req.verb, next, opts, last); }
      }
    }
  }
}
