/**
 The routes storage: a root that is split, extended, replaced and re-sorted in place. Its
 operations are steps of the model of module `Trie`, so every theorem about those steps is a
 theorem about this class.
 */
module RadixTree {
  import opened Text
  import opened WildPath
  import opened Pattern
  import T = Trie
  import opened Radix
  import Conservation
  import RouteTree
  import Lookup
  import Redirect

  /** The subtree at a sequence of child indices is a tree; changing its root's fields changes only that subtree. */
  lemma {:induction false} ShapeAtIs(s: Shape, v: T.Trie, at: seq<nat>)
    requires Radix.Tree(s, v)
    ensures ShapeAt(s, at).Some? <==> T.NodeAt(v, at).Some?
    ensures ShapeAt(s, at).Some? ==>
      var m := ShapeAt(s, at).value; Radix.Tree(m, T.NodeAt(v, at).value) && m.all <= s.all && m.node in m.all
  {
    Parts(s, v);
    if at != [] && at[0] < |s.kids| { ShapeAtIs(s.kids[at[0]], v.kids[at[0]], at[1..]); }
  }

  /** The objects of `s` represent `v`, whatever the fields of the node `n` at `at` say. */
  ghost predicate Except(s: Shape, v: T.Trie, at: seq<nat>, n: Node)
    requires Distinct(s)
    reads s.all - {n}
    decreases |at|
  {
    |s.kids| == |v.kids| &&
    if at == [] then s.node == n && RepsKids(s.kids, v.kids)
    else
      && at[0] < |s.kids| && s.node != n && Fields(s.node, v) && Points(s.node, s.kids)
      && (forall i :: 0 <= i < |s.kids| && i != at[0] ==> n !in s.kids[i].all && Radix.Tree(s.kids[i], v.kids[i]))
      && (assert DistinctKids(s.kids) && Distinct(s.kids[at[0]]); Except(s.kids[at[0]], v.kids[at[0]], at[1..], n))
  }

  lemma {:induction false} ExceptOf(s: Shape, v: T.Trie, at: seq<nat>)
    requires Radix.Tree(s, v) && ShapeAt(s, at).Some?
    ensures Except(s, v, at, ShapeAt(s, at).value.node)
    decreases |at|
  {
    ShapeAtIs(s, v, at);
    Parts(s, v);
    if at != [] {
      var k := at[0];
      KidsApart(s, k);
      ShapeAtIs(s.kids[k], v.kids[k], at[1..]);
      ExceptOf(s.kids[k], v.kids[k], at[1..]);
    }
  }

  /** Once the fields of that node are those of `m`, the objects represent the tree with `m` in its place. */
  lemma {:induction false} ExceptFilled(s: Shape, v: T.Trie, at: seq<nat>, n: Node, m: T.Trie)
    requires Distinct(s) && Except(s, v, at, n) && ShapeAt(s, at).Some? && ShapeAt(s, at).value.node == n
    requires T.NodeAt(v, at).Some? && m.kids == T.NodeAt(v, at).value.kids
    requires Fields(n, m) && Points(n, ShapeAt(s, at).value.kids)
    ensures Radix.Tree(s, T.Replace(v, at, m))
    decreases |at|
  {
    if at == [] {
    } else {
      var k := at[0];
      ExceptFilled(s.kids[k], v.kids[k], at[1..], n, m);
      AssembleUpdate(s, v, k, s.kids[k], T.Replace(v.kids[k], at[1..], m), {});
      assert s.kids[k := s.kids[k]] == s.kids && Above(s.node, s.kids) == s;
    }
  }

  /** A route starts with a slash, and the root it was added to has text or a child. */
  lemma {:induction false} KidsAfterAdd(root: T.Trie, ps: Pattern, h: T.Handler)
    requires RouteTree.IsRoot(root) && Good(ps) && Print(ps) != "" && Print(ps)[0] == '/'
    ensures RouteTree.IsRoute(ps)
    ensures var n := T.AddAtRoot(root, Print(ps), h).node; n.path == "" ==> n.kids != []
  {
    PrintStart(ps);
    RouteTree.AddAtRootStands(root, ps, h);
    if root.path == "" { RouteTree.TextlessRootAdd(root, ps, h); }
  }

  class Tree {
    var root: Node
    var mutable: bool
    /** The objects that make up the tree, and the value they represent. */
    ghost var shape: Shape
    ghost var value: T.Trie

    ghost predicate Valid()
      reads this`root, this`shape, this`value, shape.all
    {
      shape.node == root && Radix.Tree(shape, value) && RouteTree.IsRoot(value)
    }

    /** `New`: a storage without routes. */
    constructor (mutable: bool)
      ensures Valid() && fresh(shape.all) && value == T.EMPTY && this.mutable == mutable
    {
      var r := new Node("");
      r.kind := Root;
      root, this.mutable := r, mutable;
      shape, value := Above(r, []), T.EMPTY;
      new;
      Assemble(r, [], T.EMPTY);
      RouteTree.EmptyIsRoot();
    }

    /** Overwrite the handler of the node an "already registered" error points at. */
    static method Override(n: Node, e: T.AddError, h: T.Handler, ghost s: Shape, ghost v: T.Trie, ghost at: seq<nat>)
      requires Radix.Tree(s, v) && ShapeAt(s, at).Some? && ShapeAt(s, at).value.node == n
      requires e == T.HandlerExists || e == T.WildcardHandlerExists
      modifies n
      ensures T.NodeAt(v, at).Some? && Radix.Tree(s, T.Replace(v, at, T.Rehandled(T.NodeAt(v, at).value, e, h)))
    {
      ShapeAtIs(s, v, at);
      ghost var m := T.NodeAt(v, at).value;
      Parts(ShapeAt(s, at).value, m);
      ExceptOf(s, v, at);
      if e == T.HandlerExists {
        n.handler := Some(h);
      } else if n.wildcard.Some? {
        n.wildcard := Some(n.wildcard.value.(handler := h));
      }
      ExceptFilled(s, v, at, n, T.Rehandled(m, e, h));
    }

    /** Split the root where the path leaves it; what is left of the path. */
    static method CutRoot(root: Node, path: string, ghost s: Shape, ghost v: T.Trie)
      returns (rest: string, ghost s': Shape)
      requires s.node == root && Radix.Tree(s, v)
      modifies root
      ensures rest == path[Lcp(path, v.path)..] && s'.node == root && fresh(s'.all - s.all)
      ensures Radix.Tree(s', if 0 < Lcp(path, v.path) < |v.path| then T.Split(v, Lcp(path, v.path)) else v)
    {
      Parts(s, v);
      rest, s' := path, s;
      var i := LongestCommonPrefix(path, root.path);
      if i > 0 {
        if |root.path| > i {
          s' := root.Split(i, s, v);
        }
        rest := path[i..];
      }
    }

    /** The root split and `add`, before errors are looked at. */
    method AddAtRoot(path: string, h: T.Handler) returns (n: Node?, err: Option<T.AddError>)
      requires shape.node == root && Radix.Tree(shape, value)
      modifies this`shape, this`value, shape.all
      ensures shape.node == root && fresh(shape.all - old(shape.all))
      ensures value == T.AddAtRoot(old(value), path, h).node && Does(shape, T.AddAtRoot(old(value), path, h), n, err)
    {
      ghost var i := Lcp(path, value.path);
      ghost var cut := if 0 < i < |value.path| then T.Split(value, i) else value;
      assert root in shape.all;
      var rest, s := CutRoot(root, path, shape, value);
      n, err, s := root.Add(rest, h, s, cut);
      shape, value := s, T.AddAtRoot(value, path, h).node;
    }

    /** The text-less root gives way to its only child. */
    method Promote()
      requires shape.node == root && Radix.Tree(shape, value) && (value.path == "" ==> value.kids != [])
      modifies this`root, this`shape, this`value, shape.all
      ensures shape.node == root && shape.all <= old(shape.all)
      ensures value == T.Promote(old(value)) && Radix.Tree(shape, value)
    {
      Parts(shape, value);
      if |root.path| == 0 {
        ghost var s, v := shape.kids[0], value.kids[0];
        Parts(s, v);
        root := root.children[0];
        root.kind := Root;
        shape, value := s, v.(kind := Root);
      }
    }

    /** An "already registered" error in a mutable tree overwrites the handler; any other error is a panic. */
    method Refuse(n: Node?, e: T.AddError, h: T.Handler, ghost r: T.Outcome) returns (ok: bool)
      requires shape.node == root && value == r.node && Does(shape, r, n, Some(e))
      modifies this`value, shape.all
      ensures shape.node == root && Radix.Tree(shape, value) && ok == T.Overrides(r, mutable)
      ensures value == if ok then T.Replace(r.node, r.at.value, T.Rehandled(T.NodeAt(r.node, r.at.value).value, e, h))
        else r.node
    {
      if r.at.Some? { ShapeAtIs(shape, value, r.at.value); }
      ok := false;
      if mutable && n != null && !n.tsr && (e == T.HandlerExists || e == T.WildcardHandlerExists) {
        assert n in shape.all;
        Override(n, e, h, shape, value, r.at.value);
        value := T.Replace(r.node, r.at.value, T.Rehandled(T.NodeAt(r.node, r.at.value).value, e, h));
        ok := true;
      }
    }

    /** Replace a text-less root, and sort. */
    method Settle()
      requires shape.node == root && Radix.Tree(shape, value) && (value.path == "" ==> value.kids != [])
      modifies this`root, this`shape, this`value, shape.all
      ensures shape.node == root && shape.all <= old(shape.all)
      ensures T.SortsTo(T.Promote(old(value)), value) && Radix.Tree(shape, value)
    {
      Promote();
      shape, value := root.Sort(shape, value);
    }

    /** A step of the model, for a path that starts with a slash. */
    method AddPath(path: string, h: T.Handler) returns (ok: bool)
      requires shape.node == root && Radix.Tree(shape, value) && path != "" && path[0] == '/'
      requires var r := T.AddAtRoot(value, path, h); r.err == None && r.node.path == "" ==> r.node.kids != []
      modifies this`root, this`shape, this`value, shape.all
      ensures shape.node == root && Radix.Tree(shape, value) && fresh(shape.all - old(shape.all))
      ensures T.AddStep(old(value), mutable, path, h, value, ok)
    {
      ghost var r := T.AddAtRoot(value, path, h);
      var n, err := AddAtRoot(path, h);
      if err.Some? {
        ok := Refuse(n, err.value, h, r);
      } else {
        Settle();
        ok := true;
      }
    }

    /** Register a supported pattern; `ok` is false when the call panics. */
    method Add(path: string, h: T.Handler, ghost ps: Pattern) returns (ok: bool)
      requires Valid() && Good(ps) && path == Print(ps)
      modifies this`root, this`shape, this`value, shape.all
      ensures Valid() && fresh(shape.all - old(shape.all))
      ensures T.AddStep(old(value), mutable, path, h, value, ok)
    {
      if path == "" || path[0] != '/' {
        return false;
      }
      ghost var was := value;
      KidsAfterAdd(was, ps, h);
      ok := AddPath(path, h);
      RouteTree.AddConserves(was, mutable, ps, h, value, ok);
    }

    /** Look a path up; the values of its parameters are stored in the request, if there is one. */
    method Get(path: string, ctx: RequestCtx?) returns (h: Option<T.Handler>, tsr: bool)
      requires Valid()
      modifies ctx
      ensures T.Searchable(value) && h == T.Get(value, path).handler && tsr == T.Get(value, path).tsr
      ensures ctx != null ==> ctx.values == T.Written(old(ctx.values), T.Get(value, path).writes)
      ensures ctx != null ==> Lookup.Answers(Conservation.Routes(value, []), path, h, old(ctx.values), ctx.values)
    {
      Conservation.WellFormedIsSearchable(value);
      Parts(shape, value);
      if ctx != null { Lookup.GetAnswers(value, path, ctx.values); }
      if |path| > |root.path| {
        if path[..|root.path|] != root.path {
          return None, false;
        }
        h, tsr := root.GetFromChild(path[|root.path|..], ctx, shape, value);
      } else if path == root.path {
        h, tsr := root.AtEnd(ctx, shape, value);
      } else {
        h, tsr := None, false;
      }
    }

    /** Case-insensitive lookup; the buffer receives the corrected path. */
    method FindCaseInsensitivePath(path: string, fixTrailingSlash: bool, buf: Buffer) returns (ok: bool)
      requires Valid()
      modifies buf
      ensures T.Searchable(value)
      ensures match Redirect.FindCaseInsensitivePath(value, path, fixTrailingSlash)
        case Some(text) => ok && buf.B == old(buf.B) + text
        case None => !ok && buf.B == ""
    {
      Conservation.WellFormedIsSearchable(value);
      var found, tsr := root.Find(path, buf, shape, value);
      if !found || (tsr && !fixTrailingSlash) {
        buf.Reset();
        return false;
      }
      return true;
    }
  }
}
