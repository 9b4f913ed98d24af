/**
 Which answer a request gets, exactly: the condition for each answer in terms of the trees, the registered methods
 and the options alone, and the redirect every path gets that differs from a route by case.
 */
module Responses {
  import opened Text
  import opened Pattern
  import opened Trie
  import opened RouteTree
  import opened TrailingSlash
  import opened AllowList
  import opened RouteTable
  import opened Dispatch
  import opened Answered
  import Lookup
  import Redirect

  // ----- what one tree says --------------------------------------------------------------------------------

  /** The handler the tree of a method has for a path. */
  ghost function HandlerIn(t: Table, verb: string, path: string): Option<Handler>
    requires AllSearchable(t)
  {
    match TreeOf(t, verb)
    case None => None
    case Some(root) => TreeIsSearchable(t, verb); Get(root, path).handler
  }

  /** The two paths differ by a final slash; the root path only gains one. */
  predicate SlashApart(path: string, target: string) {
    if |path| > 1 && path[|path| - 1] == '/' then path == target + "/" else target == path + "/"
  }

  /** A final dot is dropped. */
  predicate Cleaned(path: string, clean: string) {
    if path != "" && path[|path| - 1] == '.' then path == clean + "." else clean == path
  }

  /** A tree redirects a request to `target`: by a slash if it recommends that, otherwise to the case-fixed path. */
  ghost predicate Moves(root: Trie, req: Request, opts: Redirect.Options, target: string)
    requires Searchable(root)
  {
    && req.verb != "CONNECT" && req.path != "/" && Get(root, req.path).handler == None
    && if Get(root, req.path).tsr && opts.redirectTrailingSlash then SlashApart(req.path, target)
       else opts.redirectFixedPath && exists clean, slash :: FixedTo(root, req.normalized, opts, clean, slash, target)
  }

  predicate FixedTo(
    root: Trie, path: string, opts: Redirect.Options, clean: string, slash: bool, target: string)
    requires Searchable(root)
  {
    Cleaned(path, clean) && Find(root, clean) == Fixed(target, slash) && (slash ==> opts.redirectTrailingSlash)
  }

  ghost predicate MovedBy(t: Table, verb: string, req: Request, opts: Options, target: string)
    requires AllSearchable(t)
  {
    TreeOf(t, verb).Some? && (TreeIsSearchable(t, verb); Moves(TreeOf(t, verb).value, req, opts.redirect, target))
  }

  /** The tree of a method neither serves nor redirects the request. */
  ghost predicate Silent(t: Table, verb: string, req: Request, opts: Options)
    requires AllSearchable(t)
  {
    HandlerIn(t, verb, req.path) == None && forall target :: !MovedBy(t, verb, req, opts, target)
  }

  lemma {:induction false} CleanIs(path: string, clean: string)
    ensures Cleaned(path, clean) <==> clean == Redirect.CleanPath(path)
  {
    if path != "" && path[|path| - 1] == '.' {
      assert path == path[..|path| - 1] + ".";
      assert path == clean + "." ==> clean == path[..|path| - 1];
    }
  }

  lemma {:induction false} ToggledIs(path: string, target: string)
    ensures SlashApart(path, target) <==> target == Lookup.Toggled(path)
  {
    if |path| > 1 && path[|path| - 1] == '/' {
      assert path == path[..|path| - 1] + "/";
      assert path == target + "/" ==> target == path[..|path| - 1];
    }
  }

  lemma {:induction false} TargetIs(root: Trie, req: Request, opts: Redirect.Options, target: string)
    requires Searchable(root) && Get(root, req.path).handler == None && req.verb != "CONNECT" && req.path != "/"
    ensures Moves(root, req, opts, target) <==>
      Redirect.Target(root, Get(root, req.path).tsr, req.path, req.normalized, opts) == Some(target)
  {
    var clean := Redirect.CleanPath(req.normalized);
    ToggledIs(req.path, target);
    CleanIs(req.normalized, clean);
    forall c, slash | FixedTo(root, req.normalized, opts, c, slash, target)
      ensures c == clean
    {
      CleanIs(req.normalized, c);
    }
    if Find(root, clean).Fixed? {
      var f := Find(root, clean);
      assert FixedTo(root, req.normalized, opts, clean, f.tsr, target) <==>
        f.text == target && (f.tsr ==> opts.redirectTrailingSlash);
    }
  }

  /** What looking in one tree comes to. */
  lemma {:induction false} TreeSays(t: Table, verb: string, req: Request, opts: Options)
    requires AllSearchable(t)
    ensures var a, h := TryMethod(t, verb, req, opts), HandlerIn(t, verb, req.path);
      && (a == None <==> Silent(t, verb, req, opts))
      && (h.Some? ==> a == Some(if req.verb == "QUERY" && req.badContent then InvalidQuery else Served(h.value)))
      && forall target :: MovedBy(t, verb, req, opts, target) <==>
           a == Some(Redirected(if req.verb == "GET" then 301 else 308, target))
  {
    if TreeOf(t, verb).Some? {
      TreeIsSearchable(t, verb);
      var root := TreeOf(t, verb).value;
      if Get(root, req.path).handler == None && req.verb != "CONNECT" && req.path != "/" {
        forall target
          ensures MovedBy(t, verb, req, opts, target) <==>
            Redirect.Target(root, Get(root, req.path).tsr, req.path, req.normalized, opts.redirect) == Some(target)
        {
          TargetIs(root, req, opts.redirect, target);
        }
      }
    }
  }

  // ----- what the router answers ---------------------------------------------------------------------------

  /** The tree of this method is the one to answer: the request's own, or the any-method tree when that is silent. */
  ghost predicate Decides(t: Table, verb: string, req: Request, opts: Options)
    requires AllSearchable(t)
  {
    verb == req.verb || (verb == WILD && Silent(t, req.verb, req, opts))
  }

  ghost predicate NoTreeAnswers(t: Table, req: Request, opts: Options)
    requires AllSearchable(t)
  {
    Silent(t, req.verb, req, opts) && Silent(t, WILD, req, opts)
  }

  /** An automatic OPTIONS answer is due, rather than "method not allowed". */
  predicate AsksOptions(req: Request, opts: Options) { req.verb == OPTIONS && opts.handleOptions }

  predicate Unreadable(req: Request) { req.verb == "QUERY" && req.badContent }

  /** What is known about a path of the whole server: computed for a request without a method, cached otherwise. */
  ghost function ServerText(t: Table, req: Request): string {
    if req.verb == "" then AllowText(Listed(t.registered)) else t.globalAllowed
  }

  /** Other methods serve the path. */
  ghost predicate OthersServe(t: Table, req: Request)
    requires AllSearchable(t)
  {
    if ServerWide(req.path) then ServerText(t, req) != "" else Others(t, req.path, req.verb) != {}
  }

  /** The text names the other methods. */
  ghost predicate NamesOthers(t: Table, req: Request, allow: string)
    requires AllSearchable(t)
  {
    if ServerWide(req.path) then allow == ServerText(t, req) else exists l :: ListsOthers(t, req, allow, l)
  }

  /** When each answer is due. */
  ghost predicate Due(t: Table, req: Request, opts: Options, a: Answer)
    requires AllSearchable(t)
  {
    match a
    case Served(h) =>
      && !Unreadable(req)
      && exists verb :: Decides(t, verb, req, opts) && HandlerIn(t, verb, req.path) == Some(h)
    case InvalidQuery =>
      && Unreadable(req)
      && exists verb :: Decides(t, verb, req, opts) && HandlerIn(t, verb, req.path).Some?
    case Redirected(code, target) =>
      && code == (if req.verb == "GET" then 301 else 308)
      && exists verb :: Decides(t, verb, req, opts) && MovedBy(t, verb, req, opts, target)
    case Methods(allow) =>
      && NoTreeAnswers(t, req, opts) && AsksOptions(req, opts)
      && OthersServe(t, req) && NamesOthers(t, req, allow)
    case NotAllowed(allow) =>
      && NoTreeAnswers(t, req, opts) && !AsksOptions(req, opts) && opts.handleMethodNotAllowed
      && OthersServe(t, req) && NamesOthers(t, req, allow)
    case Missing =>
      && NoTreeAnswers(t, req, opts)
      && !(OthersServe(t, req) && (AsksOptions(req, opts) || opts.handleMethodNotAllowed))
  }

  /** The Allow text is the one that names the other methods, and empty when there are none. */
  lemma {:induction false} AllowedIs(t: Table, req: Request, allow: string)
    requires GoodTable(t) && AllSearchable(t) && HandlerIn(t, WILD, req.path) == None
    ensures Allowed(t, req.path, req.verb) != "" <==> OthersServe(t, req)
    ensures OthersServe(t, req) ==> (NamesOthers(t, req, allow) <==> allow == Allowed(t, req.path, req.verb))
  {
    if !ServerWide(req.path) && Others(t, req.path, req.verb) != {} {
      var others := Others(t, req.path, req.verb);
      var l := TheListing(others + {OPTIONS});
      TreeIsSearchable(t, WILD);
      assert WILD !in others;
      AllowListIs(t, req, l);
      LongIsText(l);
      forall k | ListsOthers(t, req, allow, k)
        ensures k == l
      {
        ListingIsUnique(k, l, others + {OPTIONS});
      }
    }
  }

  lemma {:induction false} LongIsText(l: seq<string>)
    requires |l| >= 2
    ensures Join(l) != ""
  {
  }

  lemma {:induction false} DecidedBy(t: Table, verb: string, req: Request, opts: Options)
    requires AllSearchable(t) && Decides(t, verb, req, opts) && TryMethod(t, verb, req, opts).Some?
    ensures Handled(t, req, opts) == TryMethod(t, verb, req, opts).value
  {
    TreeSays(t, req.verb, req, opts);
  }

  /** An answer that is due is given. */
  lemma {:induction false} DueIsGiven(t: Table, req: Request, opts: Options, a: Answer)
    requires GoodTable(t) && AllSearchable(t) && Due(t, req, opts, a)
    ensures Handled(t, req, opts) == a
  {
    if a.Served? || a.InvalidQuery? {
      var verb :| Decides(t, verb, req, opts)
        && if a.Served? then HandlerIn(t, verb, req.path) == Some(a.handler) else HandlerIn(t, verb, req.path).Some?;
      TreeSays(t, verb, req, opts);
      DecidedBy(t, verb, req, opts);
    } else if a.Redirected? {
      var verb :| Decides(t, verb, req, opts) && MovedBy(t, verb, req, opts, a.target);
      TreeSays(t, verb, req, opts);
      DecidedBy(t, verb, req, opts);
    } else {
      TreeSays(t, req.verb, req, opts);
      TreeSays(t, WILD, req, opts);
      AllowedIs(t, req, if a.Missing? then "" else a.allow);
    }
  }

  /** An answer that is given is due. */
  lemma {:induction false} GivenIsDue(t: Table, req: Request, opts: Options)
    requires GoodTable(t) && AllSearchable(t)
    ensures Due(t, req, opts, Handled(t, req, opts))
  {
    var a := Handled(t, req, opts);
    TreeSays(t, req.verb, req, opts);
    TreeSays(t, WILD, req, opts);
    if NoTreeAnswers(t, req, opts) {
      AllowedIs(t, req, Allowed(t, req.path, req.verb));
    } else {
      var verb := if Silent(t, req.verb, req, opts) then WILD else req.verb;
      DecidedBy(t, verb, req, opts);
      TreeGives(t, verb, req, opts);
    }
  }

  lemma {:induction false} TreeGives(t: Table, verb: string, req: Request, opts: Options)
    requires AllSearchable(t) && Decides(t, verb, req, opts) && TryMethod(t, verb, req, opts).Some?
    ensures Due(t, req, opts, TryMethod(t, verb, req, opts).value)
  {
    TreeSays(t, verb, req, opts);
    var a := TryMethod(t, verb, req, opts).value;
    if HandlerIn(t, verb, req.path) == None {
      var target :| MovedBy(t, verb, req, opts, target);
    }
  }

  /**
   The answer to every request, from every good table under all options: each answer is given exactly when it is
   due, so a handler of the method's own tree comes before a redirect of that tree, that before the any-method
   tree, and that before an Allow list, which comes whenever other methods serve the path and the option is on.
   */
  lemma {:induction false} AnswerIsExact(t: Table, req: Request, opts: Options, a: Answer)
    requires GoodTable(t) && AllSearchable(t)
    ensures Handled(t, req, opts) == a <==> Due(t, req, opts, a)
  {
    GivenIsDue(t, req, opts);
    if Due(t, req, opts, a) { DueIsGiven(t, req, opts, a); }
  }

  // ----- redirects to the fixed path -----------------------------------------------------------------------

  /**
   A path that differs only by case from one that fits a stored route is redirected: under every method but
   CONNECT, when no tree before has an answer and fixing is on, unless the fix needs a slash that may not be fixed.
   */
  lemma {:induction false} FixedPathRedirects(
    t: Table, verb: string, req: Request, opts: Options, ps: Pattern, vals: seq<string>) returns (target: string)
    requires GoodTable(t) && AllSearchable(t) && TreeOf(t, verb).Some? && ps in Stored(TreeOf(t, verb).value)
    requires Good(ps) && Fits(ps, vals, Redirect.CleanPath(req.normalized), true) && Filled(ps, vals)
    requires Decides(t, verb, req, opts) && HandlerIn(t, verb, req.path) == None
    requires req.verb != "CONNECT" && req.path != "/" && opts.redirect.redirectFixedPath
    ensures Searchable(TreeOf(t, verb).value) && Find(TreeOf(t, verb).value, Redirect.CleanPath(req.normalized)).Fixed?
    ensures opts.redirect.redirectTrailingSlash || !Find(TreeOf(t, verb).value, Redirect.CleanPath(req.normalized)).tsr
      ==> Handled(t, req, opts) == Redirected(if req.verb == "GET" then 301 else 308, target)
  {
    var root := TreeOf(t, verb).value;
    TreeIsSearchable(t, verb);
    assert IsRoot(root);
    FindIsComplete(root, ps, vals, Redirect.CleanPath(req.normalized));
    target := FixedPathMoves(root, req, opts.redirect);
    if opts.redirect.redirectTrailingSlash || !Find(root, Redirect.CleanPath(req.normalized)).tsr {
      assert MovedBy(t, verb, req, opts, target);
      DueIsGiven(t, req, opts, Redirected(if req.verb == "GET" then 301 else 308, target));
    }
  }

  lemma {:induction false} FixedPathMoves(root: Trie, req: Request, opts: Redirect.Options) returns (target: string)
    requires Searchable(root) && Find(root, Redirect.CleanPath(req.normalized)).Fixed?
    requires Get(root, req.path).handler == None
    requires req.verb != "CONNECT" && req.path != "/" && opts.redirectFixedPath
    ensures opts.redirectTrailingSlash || !Find(root, Redirect.CleanPath(req.normalized)).tsr ==>
      Moves(root, req, opts, target)
  {
    var g, f := Get(root, req.path), Find(root, Redirect.CleanPath(req.normalized));
    target := if g.tsr && opts.redirectTrailingSlash then Lookup.Toggled(req.path) else f.text;
    TargetIs(root, req, opts, target);
  }
}
