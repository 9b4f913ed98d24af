/**
 The dispatcher and its route groups as objects: trees on the heap, one per method, middlewares and
 the cached Allow list. Every operation is a step of the models in `RouteTable`, `Dispatch` and
 `Middleware`.
 */
module Mux {
  import opened Text
  import opened Pattern
  import T = Trie
  import RT = RouteTable
  import D = Dispatch
  import Radix
  import RadixTree
  import opened AllowList
  import Middleware
  import OptionalPaths
  import Redirect
  import Conservation
  import Lookup

  const OPTIONS := RT.OPTIONS

  type Tree = RadixTree.Tree
  type Handler = T.Handler

  // ----- adding several paths --------------------------------------------------------------------------

  /** One addition that returned, and then all the others. */
  lemma {:induction false} AddsThen(
    root: T.Trie, mutable: bool, all: seq<string>, h: Handler, one: T.Trie, root': T.Trie, ok: bool)
    requires all != [] && T.AddStep(root, mutable, all[0], h, one, true)
      && RT.AddsAll(one, mutable, all[1..], h, root', ok)
    ensures RT.AddsAll(root, mutable, all, h, root', ok)
  {
    assert RT.AddsFirst(root, mutable, all, h, one, true, root', ok);
  }

  lemma {:induction false} AddsOneMore(
    root: T.Trie, mutable: bool, paths: seq<string>, p: string, h: Handler, mid: T.Trie, root': T.Trie, ok: bool)
    requires RT.AddsAll(root, mutable, paths, h, mid, true) && T.AddStep(mid, mutable, p, h, root', ok)
    ensures RT.AddsAll(root, mutable, paths + [p], h, root', ok)
    decreases |paths|
  {
    if paths == [] {
      assert RT.AddsAll(root', mutable, [], h, root', true);
      assert RT.AddsFirst(root, mutable, [p], h, root', ok, root', ok);
      assert paths + [p] == [p];
    } else {
      var one, added :| RT.AddsFirst(root, mutable, paths, h, one, added, mid, true);
      AddsOneMore(one, mutable, paths[1..], p, h, mid, root', ok);
      assert (paths + [p])[1..] == paths[1..] + [p];
      AddsThen(root, mutable, paths + [p], h, one, root', ok);
    }
  }

  lemma {:induction false} AddsNext(
    root: T.Trie, mutable: bool, paths: seq<string>, i: nat, h: Handler, mid: T.Trie, root': T.Trie, ok: bool)
    requires i < |paths| && RT.AddsAll(root, mutable, paths[..i], h, mid, true)
      && T.AddStep(mid, mutable, paths[i], h, root', ok)
    ensures RT.AddsAll(root, mutable, paths[..i + 1], h, root', ok)
  {
    AddsOneMore(root, mutable, paths[..i], paths[i], h, mid, root', ok);
    assert paths[..i] + [paths[i]] == paths[..i + 1];
  }

  lemma {:induction false} StopsAtFailure(
    root: T.Trie, mutable: bool, paths: seq<string>, more: seq<string>, h: Handler, root': T.Trie)
    requires RT.AddsAll(root, mutable, paths, h, root', false)
    ensures RT.AddsAll(root, mutable, paths + more, h, root', false)
    decreases |paths|
  {
    var all := paths + more;
    var mid, added :| RT.AddsFirst(root, mutable, paths, h, mid, added, root', false);
    assert all[0] == paths[0] && all[1..] == paths[1..] + more;
    if added { StopsAtFailure(mid, mutable, paths[1..], more, h, root'); }
    assert RT.AddsFirst(root, mutable, all, h, mid, added, root', false);
  }

  /** `Tree.Add` for a path that is some pattern's printed form. */
  method AddPrinted(tree: Tree, p: string, h: Handler) returns (ok: bool)
    requires tree.Valid() && RT.IsPrinted(p)
    modifies tree`root, tree`shape, tree`value, tree.shape.all
    ensures tree.Valid() && fresh(tree.shape.all - old(tree.shape.all))
    ensures T.AddStep(old(tree.value), tree.mutable, p, h, tree.value, ok)
  {
    ghost var ps :| Good(ps) && p == Print(ps);
    ok := tree.Add(p, h, ps);
  }

  lemma {:induction false} AddsAllOf(
    root: T.Trie, mutable: bool, paths: seq<string>, i: nat, h: Handler, root': T.Trie, ok: bool)
    requires i <= |paths| && RT.AddsAll(root, mutable, paths[..i], h, root', ok) && (i == |paths| || !ok)
    ensures RT.AddsAll(root, mutable, paths, h, root', ok)
  {
    if !ok { StopsAtFailure(root, mutable, paths[..i], paths[i..], h, root'); }
    assert paths[..i] + paths[i..] == paths;
    assert i == |paths| ==> paths[..i] == paths;
  }

  /** The loop over the optional paths; it ends with the first `Add` that panics. */
  method AddAll(tree: Tree, paths: seq<string>, h: Handler) returns (ok: bool)
    requires tree.Valid() && RT.AllPrinted(paths)
    modifies tree`root, tree`shape, tree`value, tree.shape.all
    ensures tree.Valid() && fresh(tree.shape.all - old(tree.shape.all))
    ensures RT.AddsAll(old(tree.value), tree.mutable, paths, h, tree.value, ok)
  {
    ghost var root := tree.value;
    ok := true;
    var i := 0;
    while i < |paths| && ok
      invariant i <= |paths| && tree.Valid() && fresh(tree.shape.all - old(tree.shape.all))
      invariant RT.AddsAll(root, tree.mutable, paths[..i], h, tree.value, ok)
    {
      assert paths[i] in paths;
      ghost var mid := tree.value;
      ok := AddPrinted(tree, paths[i], h);
      AddsNext(root, tree.mutable, paths, i, h, mid, tree.value, ok);
      i := i + 1;
    }
    AddsAllOf(root, tree.mutable, paths, i, h, tree.value, ok);
  }

  class Router {
    var trees: seq<Option<Tree>>
    var treeMutable: bool
    var customMethodsIndex: map<string, nat>
    var registeredPaths: map<string, seq<string>>
    var middlewares: seq<nat>
    var priorityMiddlewares: seq<nat>
    var globalAllowed: string
    /** What the trees represent, and the objects they consist of. */
    ghost var values: seq<Option<T.Trie>>
    ghost var repr: set<object>

    ghost function View(): RT.Table
      reads this
    {
      RT.Table(values, customMethodsIndex, registeredPaths, globalAllowed, treeMutable)
    }

    /** The tree at place `i` is valid and represents its value. */
    ghost predicate TreeValid(i: nat)
      requires i < |trees| == |values|
      reads this`trees, this`values, this`repr, this`treeMutable, repr
    {
      match trees[i]
      case None => values[i] == None
      case Some(t) =>
        && t in repr && t.shape.all <= repr && t.Valid()
        && values[i] == Some(t.value) && t.mutable == treeMutable
    }

    /** Trees share no node. */
    ghost predicate Apart(i: nat, j: nat)
      requires i < |trees| && j < |trees|
      reads this`trees, this`repr, repr
    {
      trees[i].Some? && trees[j].Some? && trees[i].value in repr && trees[j].value in repr ==>
        trees[i].value != trees[j].value && trees[i].value.shape.all !! trees[j].value.shape.all
    }

    ghost predicate TreesValid()
      reads this`trees, this`values, this`repr, this`treeMutable, repr
    {
      && (forall o :: o in repr ==> o is Tree || o is Radix.Node) && |values| == |trees|
      && (forall i :: 0 <= i < |trees| ==> TreeValid(i))
      && (forall i, j :: 0 <= i < j < |trees| ==> Apart(i, j))
    }

    ghost predicate Valid()
      reads this, repr
    {
      TreesValid() && RT.GoodTable(View())
    }

    constructor ()
      ensures Valid() && View() == RT.NEW && middlewares == [] && priorityMiddlewares == []
    {
      trees := [None, None, None, None, None, None, None, None, None, None, None];
      values := RT.NEW.trees;
      treeMutable, customMethodsIndex, registeredPaths := false, map[], map[];
      middlewares, priorityMiddlewares, globalAllowed, repr := [], [], "", {};
      new;
      RT.NewIsGood();
      assert forall i :: 0 <= i < |trees| ==> trees[i] == None && values[i] == None;
    }

    /** `Use` touches nothing but the list of middlewares. */
    method Use(more: seq<nat>)
      modifies this`middlewares
      ensures middlewares == old(middlewares) + more
    {
      middlewares := middlewares + more;
    }

    method UsePriority(more: seq<nat>)
      modifies this`priorityMiddlewares
      ensures priorityMiddlewares == old(priorityMiddlewares) + more
    {
      priorityMiddlewares := priorityMiddlewares + more;
    }

    method Chain(handler: Handler) returns (h: Handler)
      ensures h == Middleware.Chained(priorityMiddlewares, middlewares, handler)
    {
      h := Middleware.WrapAll(middlewares, handler);
      h := Middleware.WrapAll(priorityMiddlewares, h);
    }

    /** `Allowed` for a single method: does its tree serve the path? */
    method ServesPath(verb: string, path: string) returns (b: bool)
      requires Valid() && verb in registeredPaths
      ensures D.AllSearchable(View()) && (RT.TreeOf(View(), verb).Some? ==> T.Searchable(RT.TreeOf(View(), verb).value))
      ensures b == D.Serves(View(), verb, path)
    {
      D.GoodIsSearchable(View());
      D.TreeIsSearchable(View(), verb);
      assert RT.TreeOf(View(), verb).Some?;
      assert TreeValid(RT.MethodIndexOf(customMethodsIndex, verb));
      var i := RT.MethodIndexOf(customMethodsIndex, verb);
      var h, tsr := trees[i].value.Get(path, null);
      b := h.Some?;
    }

    /**
     The registered methods, OPTIONS and `skip` aside, whose tree serves the path (all of them when the whole
     server is asked for), in any order.
     */
    method Collect(path: string, skip: string, serverWide: bool) returns (found: seq<string>)
      requires Valid()
      ensures D.AllSearchable(View()) && NoRepeat(found) && OPTIONS !in found
      ensures forall m :: m in found <==>
        m in (if serverWide then RT.Listed(registeredPaths) else D.Others(View(), path, skip))
    {
      D.GoodIsSearchable(View());
      found := [];
      ghost var wanted := if serverWide then RT.Listed(registeredPaths) else D.Others(View(), path, skip);
      var rest := registeredPaths.Keys;
      while rest != {}
        invariant rest <= registeredPaths.Keys && NoRepeat(found) && OPTIONS !in found
        invariant forall m :: m in found <==> m in wanted && m !in rest
        decreases rest
      {
        var verb :| verb in rest;
        rest := rest - {verb};
        var take := verb != OPTIONS;
        if take && !serverWide {
          if verb == skip {
            take := false;
          } else {
            take := ServesPath(verb, path);
          }
        }
        if take {
          found := found + [verb];
        }
      }
    }

    method Allowed(path: string, reqMethod: string) returns (r: string)
      requires Valid()
      ensures D.AllSearchable(View()) && r == D.Allowed(View(), path, reqMethod)
    {
      D.GoodIsSearchable(View());
      var serverWide := path == "*" || path == "/*";
      if serverWide && reqMethod != "" {
        return globalAllowed;
      }
      var found := Collect(path, reqMethod, serverWide);
      ghost var wanted := if serverWide then RT.Listed(registeredPaths) else D.Others(View(), path, reqMethod);
      r := AllowHeader(found, wanted);
    }

    /** The tail of `Allowed`: OPTIONS joins the methods found, and the list is sorted in place. */
    static method AllowHeader(found: seq<string>, ghost wanted: set<string>) returns (r: string)
      requires NoRepeat(found) && OPTIONS !in found && forall m :: m in found <==> m in wanted
      ensures r == RT.AllowText(wanted)
    {
      if |found| == 0 {
        assert forall m :: m !in wanted;
        return "";
      }
      assert found[0] in wanted;
      var all := found + [OPTIONS];
      var list := new string[|all|](i requires 0 <= i < |all| => all[i]);
      assert list[..] == all;
      SortInPlace(list);
      assert Listing(list[..], wanted + {OPTIONS});
      ListingIsUnique(list[..], TheListing(wanted + {OPTIONS}), wanted + {OPTIONS});
      r := Join(list[..]);
    }

    /** A new tree at the end, or at an empty place. */
    method PlaceTree(i: nat)
      requires TreesValid() && i <= |trees| && (i < |trees| ==> trees[i] == None)
      modifies this`trees, this`values, this`repr
      ensures TreesValid() && fresh(repr - old(repr)) && i < |trees| && trees[i].Some?
      ensures values == if i < |old(trees)| then old(values)[i := Some(T.EMPTY)] else old(values) + [Some(T.EMPTY)]
    {
      var tree := new RadixTree.Tree(treeMutable);
      PutTree(i, tree);
    }

    method PutTree(i: nat, tree: Tree)
      requires TreesValid() && i <= |trees| && (i < |trees| ==> trees[i] == None)
      requires tree !in repr && tree.shape.all !! repr && tree.Valid()
      requires tree.value == T.EMPTY && tree.mutable == treeMutable
      modifies this`trees, this`values, this`repr
      ensures TreesValid() && repr == old(repr) + {tree} + tree.shape.all && i < |trees| && trees[i].Some?
      ensures values == if i < |old(trees)| then old(values)[i := Some(T.EMPTY)] else old(values) + [Some(T.EMPTY)]
    {
      ghost var before := repr;
      if i < |trees| {
        trees, values := trees[i := Some(tree)], values[i := Some(T.EMPTY)];
      } else {
        trees, values := trees + [Some(tree)], values + [Some(T.EMPTY)];
      }
      repr := repr + {tree} + tree.shape.all;
      forall j | 0 <= j < |trees|
        ensures TreeValid(j) && (j != i && trees[j].Some? ==>
          trees[j].value in before && trees[j].value.shape.all <= before)
      {
        if j != i { assert old(TreeValid(j)); }
      }
      forall j, k | 0 <= j < k < |trees|
        ensures Apart(j, k)
      {
        if j != i && k != i { assert old(Apart(j, k)); }
      }
    }

    /** A place and a tree for a new custom method. */
    method OpenCustom(verb: string) returns (i: nat)
      requires TreesValid()
      modifies this`trees, this`values, this`repr, this`customMethodsIndex
      ensures TreesValid() && fresh(repr - old(repr)) && i == |old(trees)| < |trees| && trees[i].Some?
      ensures View() == old(View()).(trees := old(values) + [Some(T.EMPTY)],
        custom := old(customMethodsIndex)[verb := i])
    {
      i := |trees|;
      PlaceTree(i);
      customMethodsIndex := customMethodsIndex[verb := i];
    }

    /** A tree for a built-in method; the cached Allow list is computed anew. */
    method OpenBuiltin(i: nat)
      requires TreesValid() && i < |trees| && trees[i] == None
        && RT.GoodTable(View().(trees := values[i := Some(T.EMPTY)]))
      modifies this`trees, this`values, this`repr, this`globalAllowed
      ensures TreesValid() && fresh(repr - old(repr)) && i < |trees| && trees[i].Some?
      ensures View() == old(View()).(trees := old(values)[i := Some(T.EMPTY)],
        globalAllowed := RT.AllowText(RT.Listed(registeredPaths)))
    {
      PlaceTree(i);
      globalAllowed := Allowed("*", "");
    }

    /** See that the method has a tree, for a table `t` in which the path is already noted. */
    method OpenNoted(verb: string, at: int, ghost t: RT.Table, ghost r: RT.Table) returns (i: nat)
      requires TreesValid() && View() == t && at == RT.IndexIn(t, verb) && -1 <= at < |trees| && RT.GoodTable(r)
      requires r == if at == -1 then t.(trees := t.trees + [Some(T.EMPTY)], custom := t.custom[verb := |t.trees|])
                    else if t.trees[at] == None then t.(trees := t.trees[at := Some(T.EMPTY)],
                      globalAllowed := RT.AllowText(RT.Listed(t.registered)))
                    else t
      modifies this`trees, this`values, this`repr, this`customMethodsIndex, this`globalAllowed
      ensures TreesValid() && View() == r && fresh(repr - old(repr)) && i < |trees| && trees[i].Some?
        && i == if at == -1 then |t.trees| else at
    {
      if at == -1 {
        i := OpenCustom(verb);
      } else {
        i := at;
        assert TreeValid(i);
        if trees[i] == None {
          OpenBuiltin(i);
        }
      }
    }

    /** Note the path, and see that the method has a tree. */
    method OpenTree(verb: string, path: string) returns (i: nat)
      requires TreesValid() && RT.GoodPlaces(View()) && RT.GoodTable(RT.Prepared(View(), verb, path))
      modifies this`trees, this`values, this`repr, this`customMethodsIndex, this`globalAllowed, this`registeredPaths
      ensures TreesValid() && View() == RT.Prepared(old(View()), verb, path) && fresh(repr - old(repr))
      ensures i == RT.IndexIn(View(), verb) && i < |trees| && trees[i].Some?
    {
      ghost var t := View();
      var at := RT.MethodIndexOf(customMethodsIndex, verb);
      var before := if verb in registeredPaths then registeredPaths[verb] else [];
      registeredPaths := registeredPaths[verb := before + [path]];
      i := OpenNoted(verb, at, RT.Noted(t, verb, path), RT.Prepared(t, verb, path));
    }

    /** All trees but the one at `i` are valid, within `rest`. */
    static ghost predicate OthersValid(
      trees: seq<Option<Tree>>, values: seq<Option<T.Trie>>, mutable: bool, i: nat, rest: set<object>)
      reads rest
    {
      && |trees| == |values|
      && (forall j :: 0 <= j < |trees| && j != i ==> OtherValid(trees[j], values[j], mutable, rest))
      && (forall j, k :: 0 <= j < k < |trees| && j != i && k != i ==> OthersApart(trees[j], trees[k], rest))
    }

    static ghost predicate OtherValid(tree: Option<Tree>, value: Option<T.Trie>, mutable: bool, rest: set<object>)
      reads rest
    {
      match tree
      case None => value == None
      case Some(t) => t in rest && t.shape.all <= rest && t.Valid() && value == Some(t.value) && t.mutable == mutable
    }

    static ghost predicate OthersApart(a: Option<Tree>, b: Option<Tree>, rest: set<object>)
      reads rest
    {
      a.Some? && b.Some? && a.value in rest && b.value in rest ==>
        a.value != b.value && a.value.shape.all !! b.value.shape.all
    }

    lemma TakeOut(i: nat)
      requires TreesValid() && i < |trees| && trees[i].Some?
      ensures trees[i].value in repr && trees[i].value.shape.all <= repr
      ensures OthersValid(trees, values, treeMutable, i, repr - {trees[i].value} - trees[i].value.shape.all)
    {
      assert TreeValid(i);
      var t := trees[i].value;
      var rest := repr - {t} - t.shape.all;
      forall j | 0 <= j < |trees| && j != i
        ensures OtherValid(trees[j], values[j], treeMutable, rest)
      {
        assert TreeValid(j);
        if j < i { assert Apart(j, i); } else { assert Apart(i, j); }
      }
      forall j, k | 0 <= j < k < |trees| && j != i && k != i
        ensures OthersApart(trees[j], trees[k], rest)
      {
        assert Apart(j, k);
      }
    }

    lemma PutBack(i: nat, rest: set<object>)
      requires |trees| == |values| && i < |trees| && trees[i].Some? && rest <= repr
        && (forall o :: o in repr ==> o is Tree || o is Radix.Node)
      requires OthersValid(trees, values, treeMutable, i, rest) && TreeValid(i)
      requires trees[i].value !in rest && trees[i].value.shape.all !! rest
      ensures TreesValid()
    {
      forall j | 0 <= j < |trees|
        ensures TreeValid(j)
      {
        if j != i { assert OtherValid(trees[j], values[j], treeMutable, rest); }
      }
      forall j, k | 0 <= j < k < |trees|
        ensures Apart(j, k)
      {
        if j != i && k != i { assert OthersApart(trees[j], trees[k], rest); }
        if j != i { assert OtherValid(trees[j], values[j], treeMutable, rest); }
        if k != i { assert OtherValid(trees[k], values[k], treeMutable, rest); }
      }
    }

    /** What is said of the other trees does not depend on the value noted for this one. */
    static lemma OthersStay(
      trees: seq<Option<Tree>>, values: seq<Option<T.Trie>>, mutable: bool, i: nat, rest: set<object>,
      v: Option<T.Trie>)
      requires OthersValid(trees, values, mutable, i, rest) && i < |values|
      ensures OthersValid(trees, values[i := v], mutable, i, rest)
    {
      forall j | 0 <= j < |trees| && j != i
        ensures OtherValid(trees[j], values[i := v][j], mutable, rest)
      {
        assert OtherValid(trees[j], values[j], mutable, rest);
      }
    }

    /** Add the paths to the tree of the method, at place `i`. */
    method AddToTree(verb: string, i: nat, paths: seq<string>, h: Handler) returns (ok: bool)
      requires TreesValid() && i < |trees| && trees[i].Some? && i == RT.IndexIn(View(), verb) && RT.AllPrinted(paths)
      modifies this`values, this`repr, repr
      ensures TreesValid() && fresh(repr - old(repr)) && RT.Registers(old(View()), verb, paths, h, View(), ok)
    {
      var tree := trees[i].value;
      assert TreeValid(i);
      TakeOut(i);
      ghost var t, rest := View(), repr - {tree} - tree.shape.all;
      ok := AddAll(tree, paths, h);
      NoteValue(i, tree, rest);
      assert RT.Stores(t, verb, paths, h, tree.value, View(), ok);
    }

    /** Record what the tree at `i` has become. */
    ghost method NoteValue(i: nat, tree: Tree, rest: set<object>)
      requires i < |trees| && trees[i] == Some(tree) && tree.Valid() && tree.mutable == treeMutable && tree in repr
      requires OthersValid(trees, values, treeMutable, i, rest) && rest <= repr && tree !in rest
        && tree.shape.all !! rest
      requires forall o :: o in repr ==> o is Tree || o is Radix.Node
      modifies this`values, this`repr
      ensures TreesValid() && repr == old(repr) + tree.shape.all
        && View() == old(View()).(trees := old(values)[i := Some(tree.value)])
    {
      OthersStay(trees, values, treeMutable, i, rest, Some(tree.value));
      values := values[i := Some(tree.value)];
      repr := repr + tree.shape.all;
      PutBack(i, rest);
    }

    /** All paths a pattern stands for, once the method has a tree. */
    method RegisterPaths(verb: string, path: string, i: nat, h: Handler) returns (ok: bool)
      requires TreesValid() && i < |trees| && trees[i].Some? && i == RT.IndexIn(View(), verb) && RT.Supported(path)
      modifies this`values, this`repr, repr
      ensures TreesValid() && fresh(repr - old(repr))
      ensures match RT.AddedPaths(path)
        case None => !ok && View() == old(View())
        case Some(ps) => RT.Registers(old(View()), verb, ps, h, View(), ok)
    {
      var optional := OptionalPaths.GetOptionalPaths(path);
      if optional == None {
        return false;
      }
      var paths := if optional.value == [] then [path] else optional.value;
      ok := AddToTree(verb, i, paths, h);
    }

    /** The registration itself, in a table that has been checked beforehand. */
    method Register(verb: string, path: string, handler: Handler) returns (ok: bool)
      requires TreesValid() && RT.GoodPlaces(View()) && RT.GoodTable(RT.Prepared(View(), verb, path))
      requires RT.Acceptable(verb, path) && RT.Supported(path)
      modifies this`trees, this`values, this`repr, this`customMethodsIndex, this`globalAllowed, this`registeredPaths,
        repr
      ensures TreesValid() && fresh(repr - old(repr))
      ensures RT.HandleStep(old(View()), verb, path, Middleware.Chained(priorityMiddlewares, middlewares, handler),
        View(), ok)
    {
      var i := OpenTree(verb, path);
      ghost var mid := repr;
      var h := Chain(handler);
      ok := RegisterPaths(verb, path, i, h);
      assert repr - old(repr) <= (repr - mid) + (mid - old(repr));
    }

    /** Register a handler for a method and a path pattern; `ok` is false when the call panics. */
    method Handle(verb: string, path: string, handler: Handler) returns (ok: bool)
      requires Valid() && RT.Supported(path)
      modifies this`trees, this`values, this`repr, this`customMethodsIndex, this`globalAllowed, this`registeredPaths,
        repr
      ensures Valid() && fresh(repr - old(repr))
      ensures RT.HandleStep(old(View()), verb, path, Middleware.Chained(priorityMiddlewares, middlewares, handler),
        View(), ok)
      ensures forall m :: m != verb ==> RT.TreeOf(View(), m) == RT.TreeOf(old(View()), m)
    {
      if verb == "" || path == "" || path[0] != '/' {
        return false;
      }
      ghost var t := View();
      RT.PreparedMethods(t, verb, path);
      ok := Register(verb, path, handler);
      RT.HandleKeepsTable(t, verb, path, Middleware.Chained(priorityMiddlewares, middlewares, handler), View(), ok);
    }

    ghost function TreeObjects(): set<Tree>
      reads this`trees
    {
      set i | 0 <= i < |trees| && trees[i].Some? :: trees[i].value
    }

    /** Set the flag of every tree. */
    method SetFlags(v: bool)
      modifies TreeObjects()`mutable
      ensures forall j :: 0 <= j < |trees| && trees[j].Some? ==> trees[j].value.mutable == v
    {
      var k := 0;
      while k < |trees|
        invariant k <= |trees| && forall j :: 0 <= j < k && trees[j].Some? ==> trees[j].value.mutable == v
      {
        if trees[k].Some? {
          assert trees[k].value in old(TreeObjects());
          trees[k].value.mutable := v;
        }
        k := k + 1;
      }
    }

    /** `Mutable`: allow or forbid overriding handlers, in every tree. */
    method Mutable(v: bool)
      requires Valid()
      modifies this`treeMutable, TreeObjects()`mutable
      ensures Valid() && View() == old(View()).(mutable := v)
    {
      FlagIsNoPlace(View(), v);
      treeMutable := v;
      SetFlags(v);
      assert View() == old(View()).(mutable := v);
      forall j | 0 <= j < |trees|
        ensures TreeValid(j)
      {
        assert old(TreeValid(j));
      }
      forall i, j | 0 <= i < j < |trees|
        ensures Apart(i, j)
      {
        assert old(Apart(i, j));
      }
    }

    static lemma FlagIsNoPlace(t: RT.Table, v: bool)
      requires RT.GoodTable(t)
      ensures RT.GoodTable(t.(mutable := v))
    {
      assert forall m :: RT.TreeOf(t.(mutable := v), m) == RT.TreeOf(t, m);
    }

    /** Where to redirect a path that a tree has no handler for. */
    static method TryRedirect(
      tree: Tree, tsr: bool, verb: string, path: string, normalized: string, opts: Redirect.Options)
      returns (r: Option<(nat, string)>)
      requires tree.Valid() && T.Searchable(tree.value)
      ensures var target := Redirect.Target(tree.value, tsr, path, normalized, opts);
        r == match target case None => None case Some(t) => Some((D.RedirectCode(verb), t))
    {
      var code := if verb != "GET" then 308 else 301;
      if tsr && opts.redirectTrailingSlash {
        if |path| > 1 && path[|path| - 1] == '/' {
          return Some((code, path[..|path| - 1]));
        }
        return Some((code, path + "/"));
      }
      if opts.redirectFixedPath {
        var uri := new Radix.Buffer();
        var found := tree.FindCaseInsensitivePath(Redirect.CleanPath(normalized), opts.redirectTrailingSlash, uri);
        if found {
          ghost var text := Redirect.FindCaseInsensitivePath(tree.value, Redirect.CleanPath(normalized),
            opts.redirectTrailingSlash).value;
          assert "" + text == text;
          return Some((code, uri.B));
        }
      }
      return None;
    }

    /** Look in one tree: serve, redirect, or go on. */
    static method TryTree(tree: Tree, req: D.Request, opts: D.Options, ctx: Radix.RequestCtx)
      returns (r: Option<D.Answer>)
      requires tree.Valid()
      modifies ctx
      ensures T.Searchable(tree.value) && r == D.TryTree(tree.value, req, opts)
      ensures Lookup.Answers(Conservation.Routes(tree.value, []), req.path, T.Get(tree.value, req.path).handler,
        old(ctx.values), ctx.values)
    {
      var h, tsr := tree.Get(req.path, ctx);
      if h.Some? {
        if req.verb == "QUERY" && req.badContent {
          return Some(D.InvalidQuery);
        }
        return Some(D.Served(h.value));
      }
      if req.verb != "CONNECT" && req.path != "/" {
        var target := TryRedirect(tree, tsr, req.verb, req.path, req.normalized, opts.redirect);
        if target.Some? {
          return Some(D.Redirected(target.value.0, target.value.1));
        }
      }
      return None;
    }

    /** The request is as the lookup in one of the trees left it. */
    ghost predicate Recorded(req: D.Request, was: map<string, string>, now: map<string, string>)
      reads this
    {
      var t := View();
      D.AllSearchable(t) && (now == was || RecordedBy(req.verb, req, was, now) || RecordedBy(RT.WILD, req, was, now))
    }

    ghost predicate RecordedBy(verb: string, req: D.Request, was: map<string, string>, now: map<string, string>)
      requires D.AllSearchable(View())
      reads this
    {
      var tree := RT.TreeOf(View(), verb);
      tree.Some? && (D.TreeIsSearchable(View(), verb);
        Lookup.Answers(Conservation.Routes(tree.value, []), req.path, T.Get(tree.value, req.path).handler, was, now))
    }

    /** Look in the tree of a method, if it has one. */
    method TryMethod(verb: string, req: D.Request, opts: D.Options, ctx: Radix.RequestCtx) returns (r: Option<D.Answer>)
      requires Valid()
      modifies ctx
      ensures D.AllSearchable(View()) && r == D.TryMethod(View(), verb, req, opts)
      ensures ctx.values == old(ctx.values) || RecordedBy(verb, req, old(ctx.values), ctx.values)
      ensures r.None? || r.value.Redirected? ==> ctx.values == old(ctx.values)
    {
      D.GoodIsSearchable(View());
      var i := RT.MethodIndexOf(customMethodsIndex, verb);
      if 0 <= i < |trees| {
        assert TreeValid(i);
        if trees[i].Some? {
          r := TryTree(trees[i].value, req, opts, ctx);
          return;
        }
      }
      return None;
    }

    /** Answer a request. */
    method Handler(req: D.Request, opts: D.Options, ctx: Radix.RequestCtx) returns (a: D.Answer)
      requires Valid()
      modifies ctx
      ensures D.AllSearchable(View()) && a == D.Handled(View(), req, opts)
      ensures Recorded(req, old(ctx.values), ctx.values)
      ensures !a.Served? && !a.InvalidQuery? ==> ctx.values == old(ctx.values)
    {
      D.GoodIsSearchable(View());
      var r := TryMethod(req.verb, req, opts, ctx);
      if r.Some? {
        return r.value;
      }
      r := TryMethod(RT.WILD, req, opts, ctx);
      if r.Some? {
        return r.value;
      }
      a := Fallback(req, opts);
    }

    /** The end of `Handler`, when no tree had an answer. */
    method Fallback(req: D.Request, opts: D.Options) returns (a: D.Answer)
      requires Valid()
      ensures D.AllSearchable(View()) && a == D.Fallback(View(), req, opts)
    {
      D.GoodIsSearchable(View());
      if opts.handleOptions && req.verb == OPTIONS {
        var allow := Allowed(req.path, OPTIONS);
        if allow != "" {
          return D.Methods(allow);
        }
      } else if opts.handleMethodNotAllowed {
        var allow := Allowed(req.path, req.verb);
        if allow != "" {
          return D.NotAllowed(allow);
        }
      }
      return D.Missing;
    }
  }

  /** A sub-router: a path prefix and a list of middlewares of its own. */
  class RouteGroup {
    const router: Router
    const prefix: string
    var middlewares: seq<nat>

    constructor (router: Router, prefix: string)
      ensures this.router == router && this.prefix == prefix && middlewares == []
    {
      this.router, this.prefix, middlewares := router, prefix, [];
    }

    method Use(more: seq<nat>)
      modifies this
      ensures middlewares == old(middlewares) + more
    {
      middlewares := middlewares + more;
    }

    /** A nested group starts with a copy of this group's middlewares. */
    method Group(path: string) returns (g: RouteGroup)
      ensures fresh(g) && g.router == router && g.prefix == prefix + path && g.middlewares == middlewares
    {
      g := new RouteGroup(router, prefix + path);
      g.Use(middlewares);
    }

    method Handle(verb: string, path: string, handler: Handler) returns (ok: bool)
      requires router.Valid() && RT.Supported(prefix + path)
      modifies router, router.repr
      ensures router.Valid() && middlewares == old(middlewares)
      ensures RT.HandleStep(old(router.View()), verb, prefix + path,
        Middleware.Chained(router.priorityMiddlewares, router.middlewares, Middleware.Wrapped(middlewares, handler)),
        router.View(), ok)
    {
      var h := Middleware.WrapAll(middlewares, handler);
      ok := router.Handle(verb, prefix + path, h);
    }
  }
}
