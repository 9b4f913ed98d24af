/**
 The radix tree on the heap: nodes that are split, marked, extended and re-sorted in place.
 Every method is proved to compute the corresponding function of module `Trie` on the value
 the nodes represent. A ghost `Shape` records which objects make up a tree.
 */
module Radix {
  import opened Text
  import opened WildPath
  import T = Trie

  type Trie = T.Trie
  type Handler = T.Handler

  // ----- which objects form a tree, and which value they represent ---------------------------

  /** A tree of objects: its root, its subtrees, and all its nodes. */
  datatype Shape = Shape(node: Node, kids: seq<Shape>, all: set<Node>)

  ghost function NodesOf(kids: seq<Shape>): set<Node> {
    set i, n | 0 <= i < |kids| && n in kids[i].all :: n
  }

  ghost function Above(node: Node, kids: seq<Shape>): Shape {
    Shape(node, kids, {node} + NodesOf(kids))
  }

  /** No node occurs twice: the children's subtrees are disjoint and do not contain the node. */
  ghost predicate Distinct(s: Shape) {
    s.all == {s.node} + NodesOf(s.kids) && s.node !in NodesOf(s.kids) && DistinctKids(s.kids)
  }

  ghost predicate DistinctKids(kids: seq<Shape>) {
    && (forall i :: 0 <= i < |kids| ==> Distinct(kids[i]))
    && (forall i, j :: 0 <= i < j < |kids| ==> kids[i].all !! kids[j].all)
  }

  /** The node's own fields are those of `v`. */
  ghost predicate Fields(n: Node, v: Trie)
    reads n
  {
    && n.kind == v.kind && n.path == v.path && n.tsr == v.tsr && n.handler == v.handler
    && n.wildcard == v.wildcard && n.keys == v.keys
  }

  /** The node points at the nodes of `kids`. */
  ghost predicate Points(n: Node, kids: seq<Shape>)
    reads n
  {
    |n.children| == |kids| && forall i :: 0 <= i < |kids| ==> n.children[i] == kids[i].node
  }

  /** The objects of `s` represent the value `v`. */
  ghost predicate Reps(s: Shape, v: Trie)
    requires Distinct(s)
    reads s.all
    decreases v, 1
  {
    Fields(s.node, v) && Points(s.node, s.kids) && RepsKids(s.kids, v.kids)
  }

  ghost predicate RepsKids(kids: seq<Shape>, vs: seq<Trie>)
    requires DistinctKids(kids)
    reads NodesOf(kids)
    decreases vs, 0
  {
    |kids| == |vs| && forall i :: 0 <= i < |kids| ==> Reps(kids[i], vs[i])
  }

  /** A tree on the heap: distinct objects representing `v`. */
  ghost predicate Tree(s: Shape, v: Trie)
    reads s.all
  {
    Distinct(s) && Reps(s, v)
  }

  /** The parts of a tree: its root's fields, and a tree for every child. */
  lemma {:induction false} Parts(s: Shape, v: Trie)
    requires Tree(s, v)
    ensures Fields(s.node, v) && |s.node.children| == |s.kids| == |v.kids|
    ensures forall i :: 0 <= i < |s.kids| ==>
      Tree(s.kids[i], v.kids[i]) && s.node.children[i] == s.kids[i].node && s.kids[i].all <= s.all
  {
    assert RepsKids(s.kids, v.kids);
  }

  lemma {:induction false} KidIs(s: Shape, v: Trie, k: nat)
    requires Tree(s, v) && k < |s.kids|
    ensures |s.kids| == |v.kids| && Tree(s.kids[k], v.kids[k]) && Fields(s.kids[k].node, v.kids[k])
  {
    Parts(s, v);
    Parts(s.kids[k], v.kids[k]);
  }

  /** A tree put together from a root and its children's trees. */
  lemma {:induction false} Assemble(n: Node, kids: seq<Shape>, v: Trie)
    requires Fields(n, v) && Points(n, kids) && DistinctKids(kids) && n !in NodesOf(kids) && |kids| == |v.kids|
    requires forall i :: 0 <= i < |kids| ==> Reps(kids[i], v.kids[i])
    ensures Tree(Above(n, kids), v)
  {
  }

  /** A tree with a single child. */
  lemma {:induction false} AssembleOne(n: Node, k: Shape, v: Trie)
    requires v.kids != [] && Tree(k, v.kids[0]) && |v.kids| == 1 && n !in k.all && Fields(n, v)
      && n.children == [k.node]
    ensures Tree(Above(n, [k]), v) && Above(n, [k]).all == {n} + k.all
  {
    OneKid(k);
    Assemble(n, [k], v);
  }

  lemma {:induction false} KidNodes(kids: seq<Shape>, i: nat)
    requires i < |kids|
    ensures kids[i].all <= NodesOf(kids)
  {
  }

  lemma {:induction false} AppendNodes(kids: seq<Shape>, k: Shape)
    ensures NodesOf(kids + [k]) == NodesOf(kids) + k.all
  {
    var all := kids + [k];
    assert all[|kids|] == k;
    forall n | n in NodesOf(kids)
      ensures n in NodesOf(all)
    {
      var i :| 0 <= i < |kids| && n in kids[i].all;
      assert n in all[i].all;
    }
    forall n | n in NodesOf(all)
      ensures n in NodesOf(kids) + k.all
    {
      var i :| 0 <= i < |all| && n in all[i].all;
      assert i < |kids| ==> all[i] == kids[i];
    }
  }

  lemma {:induction false} AppendKid(kids: seq<Shape>, k: Shape)
    requires DistinctKids(kids) && Distinct(k) && NodesOf(kids) !! k.all
    ensures DistinctKids(kids + [k]) && NodesOf(kids + [k]) == NodesOf(kids) + k.all
  {
    AppendNodes(kids, k);
    forall i | 0 <= i < |kids|
      ensures kids[i].all !! k.all
    {
      KidNodes(kids, i);
    }
  }

  lemma {:induction false} OneKid(k: Shape)
    requires Distinct(k)
    ensures DistinctKids([k]) && NodesOf([k]) == k.all
  {
    AppendKid([], k);
    assert [] + [k] == [k];
  }

  /** Appending a new child. */
  lemma {:induction false} AssembleAppend(s: Shape, k: Shape, v: Trie, vk: Trie)
    requires Distinct(s) && Fields(s.node, v) && Points(s.node, s.kids + [k]) && RepsKids(s.kids, v.kids)
    requires Tree(k, vk) && k.all !! s.all
    ensures Tree(Above(s.node, s.kids + [k]), v.(kids := v.kids + [vk]))
    ensures Above(s.node, s.kids + [k]).all == s.all + k.all
  {
    AppendKid(s.kids, k);
    var kids, vs := s.kids + [k], v.kids + [vk];
    forall i | 0 <= i < |kids|
      ensures Reps(kids[i], vs[i])
    {
      if i < |s.kids| { assert Reps(s.kids[i], v.kids[i]); }
    }
    Assemble(s.node, kids, v.(kids := vs));
  }

  /** Everything but child `k` represents what it did. */
  ghost predicate Rest(s: Shape, v: Trie, k: nat)
    requires Distinct(s) && k < |s.kids|
    reads s.all
  {
    && Fields(s.node, v) && Points(s.node, s.kids) && |s.kids| == |v.kids|
    && forall i :: 0 <= i < |s.kids| && i != k ==> Tree(s.kids[i], v.kids[i])
  }

  lemma {:induction false} KidsApart(s: Shape, k: nat)
    requires Distinct(s) && k < |s.kids|
    ensures s.node !in s.kids[k].all
    ensures forall i :: 0 <= i < |s.kids| && i != k ==> s.kids[i].all !! s.kids[k].all
  {
    KidNodes(s.kids, k);
    forall i | 0 <= i < |s.kids| && i != k
      ensures s.kids[i].all !! s.kids[k].all
    {
      if i < k { assert s.kids[i].all !! s.kids[k].all; } else { assert s.kids[k].all !! s.kids[i].all; }
    }
  }

  /** A tree whose child `k` was changed. */
  lemma {:induction false} AssembleUpdate(s: Shape, v: Trie, k: nat, sk: Shape, vk: Trie, more: set<Node>)
    requires Distinct(s) && k < |s.kids| && Rest(s, v, k)
    requires Tree(sk, vk) && sk.node == s.kids[k].node && sk.all <= s.kids[k].all + more && more !! s.all
    ensures Tree(Above(s.node, s.kids[k := sk]), v.(kids := v.kids[k := vk]))
    ensures Above(s.node, s.kids[k := sk]).all <= s.all + more
  {
    Assemble(s.node, s.kids[k := sk], v.(kids := v.kids[k := vk]));
  }

  /** The subtree at a sequence of child indices. */
  ghost function ShapeAt(s: Shape, at: seq<nat>): Option<Shape> {
    if at == [] then Some(s) else if at[0] < |s.kids| then ShapeAt(s.kids[at[0]], at[1..]) else None
  }

  /** The node an operation returns is the one its outcome points at. */
  ghost predicate Returned(s: Shape, at: Option<seq<nat>>, n: Node?) {
    match at
    case None => n == null
    case Some(t) => ShapeAt(s, t).Some? && ShapeAt(s, t).value.node == n
  }

  /** The objects of `s` represent the outcome's tree, and its error and node are the ones returned. */
  ghost predicate Does(s: Shape, r: T.Outcome, n: Node?, err: Option<T.AddError>)
    reads s.all
  {
    Tree(s, r.node) && err == r.err && Returned(s, r.at, n)
  }

  lemma {:induction false} FirstSharedIs(kids: seq<Trie>, path: string, k: nat)
    requires k <= |kids| && (forall j :: 0 <= j < k ==> Lcp(path, kids[j].path) == 0)
      && (k < |kids| ==> Lcp(path, kids[k].path) > 0)
    ensures T.FirstShared(kids, path) == k
  {
  }

  lemma {:induction false} AddAtStaticIs(v: Trie, k: nat, path: string, h: Handler)
    requires path != "" && k == T.FirstShared(v.kids, path) && k < |v.kids| && v.kids[k].kind == Static
    ensures var i := Lcp(path, v.kids[k].path);
      var cut := if |v.kids[k].path| > i then T.Split(v.kids[k], i) else v.kids[k];
      var n1 := v.(kids := v.kids[k := cut]);
      T.Add(v, path, h) == if |path| > i then T.Under(n1, k, T.Add(cut, path[i..], h)) else T.SetAtChild(n1, k, path, h)
  {
  }

  /** The slash marks set around the childless node hung as child `k`: "/", text ending in a slash, other text. */
  function MarkedAround(v: Trie, k: nat): Trie
    requires k < |v.kids|
  {
    var a := v.kids[k];
    if a.path == "/" then v.(tsr := true)
    else if a.path != "" && a.path[|a.path| - 1] == '/' then
      v.(kids := v.kids[k := T.Split(a, |a.path| - 1).(tsr := true)])
    else v.(kids := v.kids[k := a.(kids := a.kids + [T.MARKER])])
  }

  lemma {:induction false} AttachIs(v: Trie, leaf: Trie, h: Handler)
    ensures var r, hung := T.Attach(v, leaf, h), v.(kids := v.kids + [leaf.(handler := Some(h))]);
      r.at == Some([|v.kids|]) && r.node == MarkedAround(hung, |v.kids|)
  {
    var a := leaf.(handler := Some(h));
    forall b
      ensures (v.kids + [a])[|v.kids| := b] == v.kids + [b]
    {
    }
  }

  ghost function Lifted(k: nat, at: Option<seq<nat>>): Option<seq<nat>> {
    match at case None => None case Some(t) => Some([k] + t)
  }

  /** `s` with the objects of child `k` replaced. */
  ghost function Grown(s: Shape, k: nat, sk: Shape): Shape
    requires k < |s.kids|
  {
    Above(s.node, s.kids[k := sk])
  }

  /** An operation on child `k`, seen from its parent. */
  lemma {:induction false} Regrow(s: Shape, v: Trie, k: nat, sk: Shape, vk: Trie, at: Option<seq<nat>>, n: Node?)
    requires Distinct(s) && k < |s.kids| && Rest(s, v, k) && Tree(sk, vk) && sk.node == s.kids[k].node
    requires (sk.all - s.kids[k].all) !! s.all && Returned(sk, at, n)
    ensures Tree(Grown(s, k, sk), v.(kids := v.kids[k := vk])) && Grown(s, k, sk).all <= s.all + sk.all
    ensures Returned(Grown(s, k, sk), Lifted(k, at), n)
  {
    AssembleUpdate(s, v, k, sk, vk, sk.all - s.kids[k].all);
  }

  lemma {:induction false} RestOf(s: Shape, v: Trie, k: nat)
    requires Tree(s, v) && k < |s.kids|
    ensures |s.kids| == |v.kids| && Rest(s, v, k) && Tree(s.kids[k], v.kids[k]) && s.kids[k].all <= s.all
      && s.node !in s.kids[k].all
  {
    Parts(s, v);
    KidsApart(s, k);
  }

  // ----- what sorting a list of children does --------------------------------------------------

  lemma {:induction false} SwapKids(kids: seq<Shape>, j: nat)
    requires DistinctKids(kids) && 0 < j < |kids|
    ensures DistinctKids(Swapped(kids, j)) && NodesOf(Swapped(kids, j)) == NodesOf(kids)
  {
    var all := Swapped(kids, j);
    forall a, b | 0 <= a < b < |all|
      ensures all[a].all !! all[b].all
    {
      var x := if a == j then j - 1 else if a == j - 1 then j else a;
      var y := if b == j then j - 1 else if b == j - 1 then j else b;
      if x < y { assert kids[x].all !! kids[y].all; } else { assert kids[y].all !! kids[x].all; }
    }
    forall n | n in NodesOf(kids)
      ensures n in NodesOf(all)
    {
      var i :| 0 <= i < |kids| && n in kids[i].all;
      var x := if i == j then j - 1 else if i == j - 1 then j else i;
      assert n in all[x].all;
    }
  }

  lemma {:induction false} SwapAssembles(n: Node, s: Shape, v: Trie, j: nat)
    requires Distinct(s) && n == s.node && Fields(n, v) && RepsKids(s.kids, v.kids) && 0 < j < |s.kids| == |n.children|
    requires Points(n, Swapped(s.kids, j))
    ensures Tree(Above(n, Swapped(s.kids, j)), v.(kids := Swapped(v.kids, j)))
      && Above(n, Swapped(s.kids, j)).all == s.all
  {
    SwapKids(s.kids, j);
    forall i | 0 <= i < |s.kids|
      ensures Reps(Swapped(s.kids, j)[i], Swapped(v.kids, j)[i])
    {
      assert Reps(s.kids[i], v.kids[i]) && Reps(s.kids[j], v.kids[j]) && Reps(s.kids[j - 1], v.kids[j - 1]);
    }
    Assemble(n, Swapped(s.kids, j), v.(kids := Swapped(v.kids, j)));
  }

  /** The children up to `i` are in order, except that the one at `j` may belong further left. */
  ghost predicate OrderedBut(kids: seq<Trie>, i: nat, j: nat)
    requires i < |kids|
  {
    forall a, b :: 0 <= a < b <= i && b != j ==> !T.Less(kids[b], kids[a])
  }

  lemma {:induction false} SiftStep(kids: seq<Trie>, i: nat, j: nat)
    requires 0 < j <= i < |kids| && OrderedBut(kids, i, j) && T.Less(kids[j], kids[j - 1])
    ensures OrderedBut(Swapped(kids, j), i, j - 1) && multiset(Swapped(kids, j)) == multiset(kids)
  {
  }

  lemma {:induction false} SiftedOrders(kids: seq<Trie>, i: nat, j: nat)
    requires j <= i < |kids| && OrderedBut(kids, i, j) && (j > 0 ==> !T.Less(kids[j], kids[j - 1]))
    ensures T.Ordered(kids[..i + 1])
  {
    forall a, b | 0 <= a < b <= i
      ensures !T.Less(kids[b], kids[a])
    {
      if b == j && a < j - 1 { assert !T.Less(kids[j - 1], kids[a]); }
    }
  }

  /** The part of a request a lookup writes to. */
  class RequestCtx {
    var values: map<string, string>

    constructor ()
      ensures values == map[]
    {
      values := map[];
    }

    method SetUserValue(key: string, value: string)
      modifies this
      ensures values == old(values)[key := value]
    {
      values := values[key := value];
    }
  }

  /** The byte buffer a case-insensitive search writes to and takes back from. */
  class Buffer {
    var B: string

    constructor ()
      ensures B == ""
    {
      B := "";
    }

    method WriteString(s: string)
      modifies this
      ensures B == old(B) + s
    {
      B := B + s;
    }

    /** `bufferRemoveString`: drop as many bytes as `s` has. */
    method RemoveString(s: string)
      requires |s| <= |B|
      modifies this
      ensures B == old(B)[..|old(B)| - |s|]
    {
      B := B[..|B| - |s|];
    }

    method Reset()
      modifies this
      ensures B == ""
    {
      B := "";
    }
  }

  /** What a search reports, and the buffer before and after it. */
  ghost predicate Found(f: T.Fixed, found: bool, tsr: bool, was: string, now: string) {
    match f
    case NotFound => !found && !tsr && now == was
    case Fixed(text, slash) => found && tsr == slash && now == was + text
  }

  class Node {
    var kind: NodeType
    var path: string
    var tsr: bool
    var handler: Option<Handler>
    var children: seq<Node>
    var wildcard: Option<T.WildNode>
    var keys: seq<string>

    constructor (path: string)
      ensures Fields(this, T.NewNode(path)) && children == []
    {
      this.path := path;
      kind, tsr, handler, children, wildcard, keys := Static, false, None, [], None, [];
    }

    /** A deep copy: new objects throughout, the same value. */
    method Clone(ghost s: Shape, ghost v: Trie) returns (c: Node, ghost s': Shape)
      requires s.node == this && Tree(s, v)
      ensures s'.node == c && Tree(s', v) && fresh(s'.all)
      decreases v, 1
    {
      Parts(s, v);
      var copies, kids := CloneAll(children, s.kids, v.kids);
      c := new Node(path);
      c.kind, c.tsr, c.handler, c.wildcard, c.keys := kind, tsr, handler, wildcard, keys;
      c.children := copies;
      s' := Above(c, kids);
      Assemble(c, kids, v);
    }

    static method CloneAll(nodes: seq<Node>, ghost shapes: seq<Shape>, ghost vs: seq<Trie>)
      returns (copies: seq<Node>, ghost kids: seq<Shape>)
      requires |nodes| == |shapes| == |vs|
      requires forall i :: 0 <= i < |nodes| ==> nodes[i] == shapes[i].node && Tree(shapes[i], vs[i])
      ensures |copies| == |kids| == |vs| && DistinctKids(kids) && fresh(NodesOf(kids))
      ensures forall i :: 0 <= i < |kids| ==> copies[i] == kids[i].node && Reps(kids[i], vs[i])
      decreases vs, 0
    {
      copies, kids := [], [];
      var i := 0;
      while i < |nodes|
        invariant i <= |nodes| && |copies| == |kids| == i && DistinctKids(kids) && fresh(NodesOf(kids))
        invariant forall j :: 0 <= j < i ==> copies[j] == kids[j].node && Reps(kids[j], vs[j])
      {
        ghost var before := NodesOf(kids);
        var k, sk := nodes[i].Clone(shapes[i], vs[i]);
        assert before !! sk.all;
        AppendKid(kids, sk);
        copies, kids := copies + [k], kids + [sk];
        i := i + 1;
      }
    }

    /** Cut the text at `i`; a copy of everything below moves under this node. */
    method Split(i: nat, ghost s: Shape, ghost v: Trie) returns (ghost s': Shape)
      requires s.node == this && Tree(s, v) && i <= |path|
      modifies this
      ensures s'.node == this && Tree(s', T.Split(v, i)) && fresh(s'.all - {this})
    {
      var c, sc := Clone(s, v);
      c.kind := Static;
      c.path := c.path[i..];
      c.keys := [];
      path := path[..i];
      handler := None;
      tsr := false;
      wildcard := None;
      children := [c];
      s' := Above(this, [sc]);
      AssembleOne(this, sc, T.Split(v, i));
    }

    method FindSlash(ghost s: Shape, ghost v: Trie) returns (k: nat)
      requires s.node == this && Tree(s, v)
      ensures k == T.FirstSlash(v.kids) && k <= |children|
    {
      Parts(s, v);
      k := 0;
      while k < |children|
        invariant k <= |children| && forall j :: 0 <= j < k ==> v.kids[j].path != "/"
      {
        assert Fields(s.kids[k].node, v.kids[k]);
        if children[k].path == "/" {
          return;
        }
        k := k + 1;
      }
    }

    /** Append a new leaf. */
    method Append(child: Node, ghost k: Shape, ghost vk: Trie, ghost s: Shape, ghost v: Trie) returns (ghost s': Shape)
      requires s.node == this && Tree(s, v) && k.node == child && Tree(k, vk) && k.all !! s.all
      modifies this
      ensures s' == Above(this, s.kids + [k]) && Tree(s', v.(kids := v.kids + [vk])) && s'.all == s.all + k.all
    {
      Parts(s, v);
      children := children + [child];
      AssembleAppend(s, k, v, vk);
      s' := Above(this, s.kids + [k]);
    }

    /** Set the mark of child `k`. */
    method MarkKid(k: nat, ghost s: Shape, ghost v: Trie) returns (ghost s': Shape)
      requires s.node == this && Tree(s, v) && k < |children|
      modifies s.all
      ensures s'.node == this && k < |v.kids| && Tree(s', v.(kids := v.kids[k := v.kids[k].(tsr := true)]))
        && s'.all <= s.all
    {
      Parts(s, v);
      ghost var sk := s.kids[k];
      Parts(sk, v.kids[k]);
      KidsApart(s, k);
      children[k].tsr := true;
      assert Rest(s, v, k);
      AssembleUpdate(s, v, k, sk, v.kids[k].(tsr := true), {});
      s' := Above(this, s.kids[k := sk]);
    }

    /** Append a bare "/" child that only recommends dropping the slash. */
    method AppendMarker(ghost s: Shape, ghost v: Trie) returns (ghost s': Shape)
      requires s.node == this && Tree(s, v)
      modifies this
      ensures s'.node == this && Tree(s', v.(kids := v.kids + [T.MARKER])) && fresh(s'.all - s.all)
    {
      var marker := new Node("/");
      marker.tsr := true;
      ghost var sm := Above(marker, []);
      Assemble(marker, [], T.MARKER);
      s' := Append(marker, sm, T.MARKER, s, v);
    }

    /** Mark the "/" child, adding a bare one when there is none. */
    method MarkSlash(ghost s: Shape, ghost v: Trie) returns (ghost s': Shape)
      requires s.node == this && Tree(s, v)
      modifies s.all
      ensures s'.node == this && Tree(s', T.MarkSlash(v)) && fresh(s'.all - s.all)
    {
      Parts(s, v);
      var k := FindSlash(s, v);
      if k < |children| {
        s' := MarkKid(k, s, v);
      } else if path != "/" {
        s' := AppendMarker(s, v);
      } else {
        s' := s;
      }
    }

    method SetHandler(h: Handler, ghost s: Shape, ghost v: Trie) returns (err: Option<T.AddError>, ghost s': Shape)
      requires s.node == this && Tree(s, v)
      modifies s.all
      ensures s'.node == this && Tree(s', T.SetHandler(v, h).node) && fresh(s'.all - s.all)
        && err == T.SetHandler(v, h).err
    {
      Parts(s, v);
      if handler.Some? || tsr {
        return Some(T.HandlerExists), s;
      }
      handler := Some(h);
      s' := MarkSlash(s, v.(handler := Some(h)));
      err := None;
    }

    /** Set this node's own mark. */
    method MarkSelf(ghost s: Shape, ghost v: Trie)
      requires s.node == this && Tree(s, v)
      modifies this
      ensures Tree(s, v.(tsr := true))
    {
      Parts(s, v);
      tsr := true;
    }

    /** Append a childless node. */
    method AppendLeaf(child: Node, ghost leaf: Trie, ghost s: Shape, ghost v: Trie) returns (ghost s': Shape)
      requires s.node == this && Tree(s, v) && child !in s.all && Fields(child, leaf) && child.children == []
        && leaf.kids == []
      modifies this
      ensures |s.kids| == |v.kids| && s' == Above(this, s.kids + [Above(child, [])]) && s'.all == s.all + {child}
      ensures Tree(s', v.(kids := v.kids + [leaf]))
    {
      Parts(s, v);
      ghost var sk := Above(child, []);
      Assemble(child, [], leaf);
      assert sk.all == {child};
      s' := Append(child, sk, leaf, s, v);
    }

    /** Append a childless node with the handler. */
    method Hang(child: Node, h: Handler, ghost leaf: Trie, ghost s: Shape, ghost v: Trie) returns (ghost s': Shape)
      requires s.node == this && Tree(s, v) && child !in s.all && Fields(child, leaf) && child.children == []
        && leaf.kids == []
      modifies this, child
      ensures |s.kids| == |v.kids| && s' == Above(this, s.kids + [Above(child, [])]) && s'.all == s.all + {child}
      ensures Tree(s', v.(kids := v.kids + [leaf.(handler := Some(h))])) && Fields(child, leaf.(handler := Some(h)))
      ensures Returned(s', Some([|v.kids|]), child)
    {
      child.handler := Some(h);
      s' := AppendLeaf(child, leaf.(handler := Some(h)), s, v);
    }

    /** `Attach`, text ending in a slash: cut it off and mark the child. */
    method SplitHung(child: Node, ghost k: nat, ghost s: Shape, ghost v: Trie) returns (ghost s': Shape)
      requires s.node == this && Tree(s, v) && k < |s.kids| && k < |v.kids| && s.kids[k] == Above(child, [])
        && child.path != ""
      modifies child
      ensures |v.kids[k].path| > 0 && s'.node == this && fresh(s'.all - s.all)
      ensures Tree(s', v.(kids := v.kids[k := T.Split(v.kids[k], |v.kids[k].path| - 1).(tsr := true)]))
      ensures Returned(s', Some([k]), child)
    {
      RestOf(s, v, k);
      ghost var vk, before := v.kids[k], s.all;
      var last := |child.path| - 1;
      ghost var sk := child.Split(last, s.kids[k], vk);
      child.tsr := true;
      KidsApart(s, k);
      assert Rest(s, v, k);
      assert (sk.all - s.kids[k].all) !! before;
      Regrow(s, v, k, sk, T.Split(vk, last).(tsr := true), Some([]), child);
      s' := Grown(s, k, sk);
    }

    /** `Attach`, other text: add a marker below the child. */
    method MarkHung(child: Node, ghost k: nat, ghost s: Shape, ghost v: Trie) returns (ghost s': Shape)
      requires s.node == this && Tree(s, v) && k < |s.kids| && k < |v.kids| && s.kids[k] == Above(child, [])
      modifies child
      ensures s'.node == this && fresh(s'.all - s.all)
      ensures Tree(s', v.(kids := v.kids[k := v.kids[k].(kids := v.kids[k].kids + [T.MARKER])]))
      ensures Returned(s', Some([k]), child)
    {
      RestOf(s, v, k);
      ghost var vk, before := v.kids[k], s.all;
      ghost var sk := child.AppendMarker(s.kids[k], vk);
      KidsApart(s, k);
      assert Rest(s, v, k);
      assert (sk.all - s.kids[k].all) !! before;
      Regrow(s, v, k, sk, vk.(kids := vk.kids + [T.MARKER]), Some([]), child);
      s' := Grown(s, k, sk);
    }

    /** The slash marks around the childless node hung last. */
    method MarkAround(child: Node, ghost k: nat, ghost s: Shape, ghost v: Trie) returns (ghost s': Shape)
      requires s.node == this && Tree(s, v) && k < |s.kids| && k < |v.kids| && s.kids[k] == Above(child, [])
      modifies this, child
      ensures s'.node == this && fresh(s'.all - s.all) && Tree(s', MarkedAround(v, k)) && Returned(s', Some([k]), child)
    {
      KidIs(s, v, k);
      if child.path == "/" {
        MarkSelf(s, v);
        s' := s;
      } else if child.path != "" && child.path[|child.path| - 1] == '/' {
        s' := SplitHung(child, k, s, v);
      } else {
        s' := MarkHung(child, k, s, v);
      }
    }

    /** The tail of `insert`: hang `child` here with the handler, and set the slash marks around it. */
    method Attach(child: Node, h: Handler, ghost leaf: Trie, ghost s: Shape, ghost v: Trie) returns (ghost s': Shape)
      requires s.node == this && Tree(s, v) && child !in s.all && Fields(child, leaf) && child.children == []
        && leaf.kids == []
      modifies this, child
      ensures s'.node == this && Tree(s', T.Attach(v, leaf, h).node) && fresh(s'.all - s.all - {child})
      ensures Returned(s', T.Attach(v, leaf, h).at, child)
    {
      AttachIs(v, leaf, h);
      s' := Hang(child, h, leaf, s, v);
      s' := MarkAround(child, |v.kids|, s', v.(kids := v.kids + [leaf.(handler := Some(h))]));
    }

    /** Attach a wildcard here, unless there is one already. */
    method AttachWildcard(path: string, wp: WildPath, h: Handler, ghost s: Shape, ghost v: Trie)
      returns (n: Node?, err: Option<T.AddError>)
      requires s.node == this && Tree(s, v) && |wp.keys| > 0
      modifies this
      ensures Tree(s, T.AttachWildcard(v, path, wp, h).node) && err == T.AttachWildcard(v, path, wp, h).err
      ensures Returned(s, T.AttachWildcard(v, path, wp, h).at, n)
    {
      Parts(s, v);
      if wildcard.Some? {
        if wildcard.value.path == path {
          return this, Some(T.WildcardHandlerExists);
        }
        return null, Some(T.WildcardConflict);
      }
      wildcard := Some(T.WildNode(wp.path, wp.keys[0], h));
      return this, None;
    }

    /** The wildcard branch of `insert`. */
    method InsertWildcard(path: string, wp: WildPath, h: Handler, ghost s: Shape, ghost v: Trie)
      returns (n: Node?, err: Option<T.AddError>, ghost s': Shape)
      requires s.node == this && Tree(s, v) && |wp.keys| > 0
      modifies this
      ensures s'.node == this && fresh(s'.all - s.all) && Does(s', T.InsertWildcard(v, path, wp, h), n, err)
    {
      Parts(s, v);
      var end := SegmentEndIndex(path, true);
      n, s' := null, s;
      if |path| != end {
        err := Some(T.WildcardNotAtEnd);
      } else if this.path == "" {
        err := Some(T.BadPattern);
      } else if this.path[|this.path| - 1] != '/' {
        err := Some(T.WildcardWithoutSlash);
      } else if this.path != "/" {
        n, err, s' := SplitForWildcard(path, wp, h, s, v);
      } else {
        n, err := AttachWildcard(path, wp, h, s, v);
      }
    }

    /** Cut the final slash off this node's text, mark it, and attach the wildcard below. */
    method SplitForWildcard(path: string, wp: WildPath, h: Handler, ghost s: Shape, ghost v: Trie)
      returns (n: Node?, err: Option<T.AddError>, ghost s': Shape)
      requires s.node == this && Tree(s, v) && |wp.keys| > 0 && this.path != ""
      modifies this
      ensures v.path != "" && s'.node == this && fresh(s'.all - {this})
      ensures var cut := T.Split(v, |v.path| - 1).(tsr := true); var r := T.AttachWildcard(cut.kids[0], path, wp, h);
        Tree(s', T.Under(cut, 0, r).node) && err == r.err && Returned(s', Lifted(0, r.at), n)
    {
      Parts(s, v);
      ghost var cut := T.Split(v, |v.path| - 1).(tsr := true);
      ghost var s1 := Split(|this.path| - 1, s, v);
      MarkSelf(s1, T.Split(v, |v.path| - 1));
      Parts(s1, cut);
      RestOf(s1, cut, 0);
      KidsApart(s1, 0);
      assert s1.kids[0].node in s1.kids[0].all;
      n, err := children[0].AttachWildcard(path, wp, h, s1.kids[0], cut.kids[0]);
      assert Rest(s1, cut, 0);
      ghost var r := T.AttachWildcard(cut.kids[0], path, wp, h);
      Regrow(s1, cut, 0, s1.kids[0], r.node, r.at, n);
      s' := Grown(s1, 0, s1.kids[0]);
    }

    /** Append an empty `child` and go on inserting below it. */
    method InsertBelow(child: Node, path: string, h: Handler, ghost leaf: Trie, ghost s: Shape, ghost v: Trie)
      returns (n: Node?, err: Option<T.AddError>, ghost s': Shape)
      requires s.node == this && Tree(s, v) && child !in s.all && Fields(child, leaf) && child.children == []
        && leaf.kids == []
      modifies this, child
      ensures s'.node == this && fresh(s'.all - s.all - {child})
      ensures Does(s', T.Under(v.(kids := v.kids + [leaf]), |v.kids|, T.Insert(leaf, path, h)), n, err)
      decreases |path|, 3
    {
      ghost var k, sk, v1 := |v.kids|, Above(child, []), v.(kids := v.kids + [leaf]);
      ghost var s1 := AppendLeaf(child, leaf, s, v);
      RestOf(s1, v1, k);
      KidsApart(s1, k);
      ghost var before, r := s1.all, T.Insert(leaf, path, h);
      ghost var sk';
      n, err, sk' := child.Insert(path, h, sk, leaf);
      assert Rest(s1, v1, k);
      assert (sk'.all - sk.all) !! before;
      Regrow(s1, v1, k, sk', r.node, r.at, n);
      s' := Grown(s1, k, sk');
    }

    method Insert(path: string, h: Handler, ghost s: Shape, ghost v: Trie)
      returns (n: Node?, err: Option<T.AddError>, ghost s': Shape)
      requires s.node == this && Tree(s, v)
      modifies this
      ensures s'.node == this && fresh(s'.all - s.all) && Does(s', T.Insert(v, path, h), n, err)
      decreases |path|, 2
    {
      var end := SegmentEndIndex(path, true);
      var r := FindWildPath(path);
      n, s' := null, s;
      match r {
        case Panics(_) =>
          err := Some(T.BadPattern);
        case NoWild =>
          var child := new Node(path);
          s' := Attach(child, h, T.NewNode(path), s, v);
          n, err := child, None;
        case Wild(wp) =>
          if wp.regex.Some? || wp.keys == [] {
            err := Some(T.OutsideModel);
          } else if wp.start > 0 {
            var child := new Node(path[..wp.start]);
            n, err, s' := InsertBelow(child, path[wp.start..], h, T.NewNode(path[..wp.start]), s, v);
          } else if wp.pType == Wildcard {
            n, err, s' := InsertWildcard(path, wp, h, s, v);
          } else {
            n, err, s' := InsertParam(path, end, wp, h, s, v);
          }
      }
    }

    /** The parameter branch of `insert`. */
    method InsertParam(path: string, end: nat, wp: WildPath, h: Handler, ghost s: Shape, ghost v: Trie)
      returns (n: Node?, err: Option<T.AddError>, ghost s': Shape)
      requires s.node == this && Tree(s, v) && end == SegmentEnd(path, true) && FindWild(path) == Wild(wp)
      requires wp.regex == None && wp.keys != [] && wp.start == 0 && wp.pType != Wildcard
      modifies this
      ensures s'.node == this && fresh(s'.all - s.all) && Does(s', T.Insert(v, path, h), n, err)
      decreases |path|, 1
    {
      ghost var leaf := T.NewNode(path[..end]).(kind := Param, keys := wp.keys);
      var child := new Node(path[..end]);
      child.kind := Param;
      child.keys := wp.keys;
      if wp.end < |path| {
        n, err, s' := InsertBelow(child, path[wp.end..], h, leaf, s, v);
      } else {
        s' := Attach(child, h, leaf, s, v);
        n, err := child, None;
      }
    }

    /** The tail of `add`'s loop body: the whole text is used up at child `k`, whose shape is now `sk`. */
    method SetAtChild(k: nat, path: string, h: Handler, ghost sk: Shape, ghost vk: Trie, ghost s: Shape, ghost v: Trie)
      returns (n: Node?, err: Option<T.AddError>, ghost s': Shape)
      requires s.node == this && Distinct(s) && k < |s.kids| && k < |children| && Rest(s, v, k)
      requires Tree(sk, vk) && sk.node == children[k] && this !in sk.all && (sk.all - s.kids[k].all) !! s.all
      modifies this, sk.all
      ensures s'.node == this && fresh(s'.all - s.all - sk.all)
      ensures Does(s', T.SetAtChild(v.(kids := v.kids[k := vk]), k, path, h), n, err)
    {
      if path == "/" {
        tsr := true;
      }
      ghost var v1, before := if path == "/" then v.(tsr := true) else v, s.all;
      KidsApart(s, k);
      assert Rest(s, v1, k);
      ghost var sk';
      err, sk' := children[k].SetHandler(h, sk, vk);
      n := children[k];
      forall i | 0 <= i < |s.kids| && i != k
        ensures s.kids[i].all !! sk.all
      {
        KidNodes(s.kids, i);
      }
      assert Rest(s, v1, k);
      assert (sk'.all - s.kids[k].all) !! before;
      Regrow(s, v1, k, sk', T.SetHandler(vk, h).node, Some([]), n);
      s' := Grown(s, k, sk');
      assert v.kids[k := vk][k := T.SetHandler(vk, h).node] == v.kids[k := T.SetHandler(vk, h).node];
      assert Lifted(k, T.SetHandler(vk, h).at) == Some([k] + []);
    }

    /** Go on adding below child `k`, whose shape is now `sk`. */
    method AddBelow(k: nat, path: string, h: Handler, ghost sk: Shape, ghost vk: Trie, ghost s: Shape, ghost v: Trie)
      returns (n: Node?, err: Option<T.AddError>, ghost s': Shape)
      requires s.node == this && Distinct(s) && k < |s.kids| && k < |children| && Rest(s, v, k)
      requires Tree(sk, vk) && sk.node == children[k] && this !in sk.all && (sk.all - s.kids[k].all) !! s.all
      modifies sk.all
      ensures s'.node == this && fresh(s'.all - s.all - sk.all)
      ensures Does(s', T.Under(v.(kids := v.kids[k := vk]), k, T.Add(vk, path, h)), n, err)
      decreases |path|, 4
    {
      KidsApart(s, k);
      ghost var before, r, sk' := s.all, T.Add(vk, path, h), sk;
      n, err, sk' := children[k].Add(path, h, sk, vk);
      forall i | 0 <= i < |s.kids| && i != k
        ensures s.kids[i].all !! sk.all
      {
        KidNodes(s.kids, i);
      }
      assert Rest(s, v, k);
      assert (sk'.all - s.kids[k].all) !! before;
      Regrow(s, v, k, sk', r.node, r.at, n);
      s' := Grown(s, k, sk');
      assert v.kids[k := vk][k := r.node] == v.kids[k := r.node];
    }

    /** Cut child `k` after the `i` characters it shares with the text being added. */
    method CutKid(k: nat, i: nat, ghost s: Shape, ghost v: Trie) returns (ghost sk: Shape)
      requires s.node == this && Tree(s, v) && k < |children| && k < |v.kids| && i <= |v.kids[k].path|
      modifies s.all
      ensures k < |s.kids| && |children| == |s.kids| && Rest(s, v, k) && sk.node == children[k] && this !in sk.all
      ensures Tree(sk, if |v.kids[k].path| > i then T.Split(v.kids[k], i) else v.kids[k])
      ensures children == old(children) && sk.node in s.all && fresh(sk.all - s.kids[k].all)
      ensures s.kids[k].all <= s.all && (sk.all - s.kids[k].all) !! s.all
    {
      Parts(s, v);
      RestOf(s, v, k);
      KidsApart(s, k);
      KidNodes(s.kids, k);
      sk := s.kids[k];
      Parts(sk, v.kids[k]);
      if |children[k].path| > i {
        sk := children[k].Split(i, sk, v.kids[k]);
        assert Rest(s, v, k);
      }
    }

    /** `add` at a static child that shares `i` characters. */
    method AddAtStatic(k: nat, i: nat, path: string, h: Handler, ghost s: Shape, ghost v: Trie)
      returns (n: Node?, err: Option<T.AddError>, ghost s': Shape)
      requires s.node == this && Tree(s, v) && k < |children| && path != ""
      requires k == T.FirstShared(v.kids, path) && k < |v.kids| && v.kids[k].kind == Static
        && i == Lcp(path, v.kids[k].path)
      modifies s.all
      ensures s'.node == this && fresh(s'.all - s.all) && Does(s', T.Add(v, path, h), n, err)
      decreases |path|, 1
    {
      AddAtStaticIs(v, k, path, h);
      ghost var vk := if |v.kids[k].path| > i then T.Split(v.kids[k], i) else v.kids[k];
      ghost var sk := CutKid(k, i, s, v);
      if |path| > i {
        n, err, s' := AddBelow(k, path[i..], h, sk, vk, s, v);
      } else {
        n, err, s' := SetAtChild(k, path, h, sk, vk, s, v);
      }
    }

    /** `add` at a parameter child that shares `i` characters. */
    method AddAtParam(k: nat, i: nat, path: string, h: Handler, ghost s: Shape, ghost v: Trie)
      returns (n: Node?, err: Option<T.AddError>, ghost s': Shape)
      requires s.node == this && Tree(s, v) && k < |s.kids| && k < |v.kids| && i == Lcp(path, v.kids[k].path) > 0
      modifies s.all
      ensures s'.node == this && fresh(s'.all - s.all) && Does(s', T.AddAtParam(v, k, path, h), n, err)
      decreases |path|, 1
    {
      Parts(s, v);
      RestOf(s, v, k);
      KidsApart(s, k);
      ghost var vk := v.kids[k];
      Parts(s.kids[k], vk);
      assert Fields(children[k], vk);
      assert v.kids[k := vk] == v.kids;
      n, s' := null, s;
      var r := FindWildPath(path);
      match r {
        case Panics(_) => err := Some(T.BadPattern);
        case NoWild => err := Some(T.BadPattern);
        case Wild(wp) =>
          if wp.regex.Some? {
            err := Some(T.OutsideModel);
          } else if |path| == wp.end && wp.start == 0 && wp.pType == Param && children[k].handler.Some? {
            if children[k].path == path {
              n, err := children[k], Some(T.HandlerExists);
              assert s == Above(this, s.kids);
            } else {
              err := Some(T.WildPathConflict);
            }
          } else if |path| > i {
            if children[k].path == wp.path {
              n, err, s' := AddBelow(k, path[i..], h, s.kids[k], vk, s, v);
            } else {
              n, err, s' := Insert(path, h, s, v);
            }
          } else {
            n, err, s' := SetAtChild(k, path, h, s.kids[k], vk, s, v);
          }
      }
    }

    /** The first child sharing a prefix with `path`, and how much it shares. */
    method FindShared(path: string, ghost s: Shape, ghost v: Trie) returns (k: nat, i: nat)
      requires s.node == this && Tree(s, v)
      ensures k == T.FirstShared(v.kids, path) && k <= |children| == |v.kids|
        && (k < |children| ==> i == Lcp(path, v.kids[k].path))
    {
      Parts(s, v);
      k, i := 0, 0;
      while k < |children|
        invariant k <= |children| && forall j :: 0 <= j < k ==> Lcp(path, v.kids[j].path) == 0
      {
        Parts(s.kids[k], v.kids[k]);
        i := LongestCommonPrefix(path, children[k].path);
        if i > 0 {
          break;
        }
        k := k + 1;
      }
      FirstSharedIs(v.kids, path, k);
    }

    /** `add` at the first child that shares `i` characters. */
    method AddAt(k: nat, i: nat, path: string, h: Handler, ghost s: Shape, ghost v: Trie)
      returns (n: Node?, err: Option<T.AddError>, ghost s': Shape)
      requires s.node == this && Tree(s, v) && k < |children| == |v.kids| && path != ""
      requires k == T.FirstShared(v.kids, path) && i == Lcp(path, v.kids[k].path)
      modifies s.all
      ensures s'.node == this && fresh(s'.all - s.all) && Does(s', T.Add(v, path, h), n, err)
      decreases |path|, 2
    {
      Parts(s, v);
      Parts(s.kids[k], v.kids[k]);
      match children[k].kind {
        case Static => n, err, s' := AddAtStatic(k, i, path, h, s, v);
        case Param => n, err, s' := AddAtParam(k, i, path, h, s, v);
        case _ =>
          RestOf(s, v, k);
          assert v.kids[k := v.kids[k]] == v.kids;
          n, err, s' := SetAtChild(k, path, h, s.kids[k], v.kids[k], s, v);
      }
    }

    /** Add the handler below this node: descend into the first child sharing a prefix, or insert. */
    method Add(path: string, h: Handler, ghost s: Shape, ghost v: Trie)
      returns (n: Node?, err: Option<T.AddError>, ghost s': Shape)
      requires s.node == this && Tree(s, v)
      modifies s.all
      ensures s'.node == this && fresh(s'.all - s.all) && Does(s', T.Add(v, path, h), n, err)
      decreases |path|, 3
    {
      if |path| == 0 {
        err, s' := SetHandler(h, s, v);
        return this, err, s';
      }
      var k, i := FindShared(path, s, v);
      if k == |children| {
        n, err, s' := Insert(path, h, s, v);
      } else {
        n, err, s' := AddAt(k, i, path, h, s, v);
      }
    }

    // ----- sort ---------------------------------------------------------------------------------

    predicate Less(i: nat, j: nat)
      requires i < |children| && j < |children|
      reads this, children[i], children[j]
    {
      var a, b := children[i], children[j];
      T.Rank(a.kind) < T.Rank(b.kind) || (a.kind == b.kind && |a.children| > |b.children|)
    }

    /** Swap child `j` with the one before it. */
    method Swap(j: nat, ghost s: Shape, ghost v: Trie) returns (ghost s': Shape)
      requires s.node == this && Tree(s, v) && 0 < j < |children|
      modifies this
      ensures s'.node == this && |children| == |old(children)| && |v.kids| == |children| && s'.all == s.all
      ensures Tree(s', v.(kids := Swapped(v.kids, j)))
    {
      Parts(s, v);
      SwapKids(s.kids, j);
      children := Swapped(children, j);
      s' := Above(this, Swapped(s.kids, j));
      SwapAssembles(this, s, v, j);
    }

    method IsLess(j: nat, ghost s: Shape, ghost v: Trie) returns (b: bool)
      requires s.node == this && Tree(s, v) && 0 < j < |children|
      ensures |v.kids| == |children| && b == T.Less(v.kids[j], v.kids[j - 1])
    {
      Parts(s, v);
      Parts(s.kids[j], v.kids[j]);
      Parts(s.kids[j - 1], v.kids[j - 1]);
      b := Less(j, j - 1);
    }

    /** Move child `i` to its place among the ordered children before it. */
    method SiftDown(i: nat, ghost s: Shape, ghost v: Trie) returns (ghost s': Shape, ghost v': Trie)
      requires s.node == this && Tree(s, v) && i < |children| && |v.kids| == |children| && T.Ordered(v.kids[..i])
      modifies this
      ensures s'.node == this && |children| == |old(children)| && s'.all == s.all && Tree(s', v')
      ensures v' == v.(kids := v'.kids) && multiset(v'.kids) == multiset(v.kids) && |v'.kids| == |v.kids|
        && T.Ordered(v'.kids[..i + 1])
    {
      s', v' := s, v;
      var j: nat := i;
      assert OrderedBut(v.kids, i, i);
      while j > 0
        invariant j <= i && s'.node == this && |children| == |old(children)| && s'.all == s.all && Tree(s', v')
        invariant v' == v.(kids := v'.kids) && multiset(v'.kids) == multiset(v.kids) && |v'.kids| == |children|
        invariant OrderedBut(v'.kids, i, j)
      {
        var less := IsLess(j, s', v');
        if !less {
          SiftedOrders(v'.kids, i, j);
          return;
        }
        s' := Swap(j, s', v');
        SiftStep(v'.kids, i, j);
        v' := v'.(kids := Swapped(v'.kids, j));
        j := j - 1;
      }
      SiftedOrders(v'.kids, i, 0);
    }

    /** Order the children, as `sort.Sort` does it for short slices. */
    method SortLevel(ghost s: Shape, ghost v: Trie) returns (ghost s': Shape, ghost v': Trie)
      requires s.node == this && Tree(s, v)
      modifies this
      ensures s'.node == this && s'.all == s.all && Tree(s', v')
      ensures v' == v.(kids := v'.kids) && multiset(v'.kids) == multiset(v.kids) && T.Ordered(v'.kids)
    {
      Parts(s, v);
      s', v' := s, v;
      var i := 0;
      while i < |children|
        invariant i <= |children| == |old(children)| && s'.node == this && s'.all == s.all && Tree(s', v')
        invariant v' == v.(kids := v'.kids) && multiset(v'.kids) == multiset(v.kids) && |v'.kids| == |children|
        invariant T.Ordered(v'.kids[..i])
      {
        s', v' := SiftDown(i, s', v');
        i := i + 1;
      }
      assert v'.kids[..i] == v'.kids;
    }

    method SortKid(k: nat, ghost s: Shape, ghost v: Trie, ghost mid: seq<Trie>)
      returns (ghost s': Shape, ghost vk: Trie)
      requires s.node == this && Tree(s, v.(kids := mid)) && k < |children| && k < |mid| == |v.kids|
        && mid[k] == v.kids[k]
      modifies s.all
      ensures s'.node == this && s'.all <= s.all && children == old(children)
      ensures T.SortsTo(v.kids[k], vk) && Tree(s', v.(kids := mid[k := vk]))
      decreases v, 0
    {
      ghost var v1 := v.(kids := mid);
      Parts(s, v1);
      RestOf(s, v1, k);
      KidsApart(s, k);
      ghost var sk;
      sk, vk := children[k].Sort(s.kids[k], v.kids[k]);
      assert Rest(s, v1, k);
      AssembleUpdate(s, v1, k, sk, vk, {});
      s' := Grown(s, k, sk);
    }

    /** Sort below every child. */
    method SortKids(ghost s: Shape, ghost v: Trie) returns (ghost s': Shape, ghost mid: seq<Trie>)
      requires s.node == this && Tree(s, v)
      modifies s.all
      ensures s'.node == this && s'.all <= s.all && Tree(s', v.(kids := mid)) && T.SortsEach(v, mid)
      decreases v, 1
    {
      Parts(s, v);
      s', mid := s, v.kids;
      var k := 0;
      while k < |children|
        invariant k <= |children| == |mid| == |v.kids| && s'.node == this && s'.all <= s.all
          && Tree(s', v.(kids := mid))
        invariant forall i :: 0 <= i < k ==> T.SortsTo(v.kids[i], mid[i])
        invariant forall i :: k <= i < |mid| ==> mid[i] == v.kids[i]
      {
        ghost var vk;
        s', vk := SortKid(k, s', v, mid);
        mid := mid[k := vk];
        k := k + 1;
      }
    }

    /** Sort every level of the tree. */
    method Sort(ghost s: Shape, ghost v: Trie) returns (ghost s': Shape, ghost v': Trie)
      requires s.node == this && Tree(s, v)
      modifies s.all
      ensures s'.node == this && s'.all <= s.all && Tree(s', v') && T.SortsTo(v, v')
      decreases v
    {
      ghost var s1, mid := SortKids(s, v);
      s', v' := SortLevel(s1, v.(kids := mid));
      assert T.SortsEach(v, mid) && multiset(mid) == multiset(v'.kids);
    }

    // ----- lookups ------------------------------------------------------------------------------

    /** Store the value of this parameter node, if there is a request to store it in. */
    method SaveParamValues(ctx: RequestCtx?, segment: string)
      requires keys != []
      modifies ctx
      ensures ctx != null ==> ctx.values == old(ctx.values)[keys[0] := segment]
    {
      if ctx != null {
        ctx.SetUserValue(keys[0], segment);
      }
    }

    /** A node whose text is used up: mark, handler, then wildcard with an empty value. */
    method AtEnd(ctx: RequestCtx?, ghost s: Shape, ghost v: Trie) returns (h: Option<Handler>, tsr: bool)
      requires s.node == this && Tree(s, v)
      modifies ctx
      ensures h == T.AtEnd(v).handler && tsr == T.AtEnd(v).tsr
      ensures ctx != null ==> ctx.values == T.Written(old(ctx.values), T.AtEnd(v).writes)
    {
      Parts(s, v);
      if this.tsr {
        return None, true;
      }
      if handler.Some? {
        return handler, false;
      }
      if wildcard.Some? {
        if ctx != null {
          ctx.SetUserValue(wildcard.value.key, "");
        }
        return Some(wildcard.value.handler), false;
      }
      return None, false;
    }

    method GetFromChild(path: string, ctx: RequestCtx?, ghost s: Shape, ghost v: Trie)
      returns (h: Option<Handler>, tsr: bool)
      requires s.node == this && Tree(s, v) && T.Searchable(v) && path != ""
      modifies ctx
      ensures h == T.GetFromChild(v, path).handler && tsr == T.GetFromChild(v, path).tsr
      ensures ctx != null ==> ctx.values == T.Written(old(ctx.values), T.GetFromChild(v, path).writes)
      decreases v, 1
    {
      Parts(s, v);
      var k := 0;
      while k < |children|
        invariant k <= |children| && Tree(s, v) && T.GetFromChild(v, path) == T.GetFrom(v, k, path)
        invariant ctx != null ==> ctx.values == old(ctx.values)
      {
        var settled;
        settled, h, tsr := TryChild(k, path, ctx, s, v);
        if settled {
          return;
        }
        k := k + 1;
      }
      if wildcard.Some? {
        if ctx != null {
          ctx.SetUserValue(wildcard.value.key, path);
        }
        return Some(wildcard.value.handler), false;
      }
      return None, false;
    }

    /** One turn of the loop of `getFromChild`; a child that does not settle the search writes nothing. */
    method TryChild(k: nat, path: string, ctx: RequestCtx?, ghost s: Shape, ghost v: Trie)
      returns (settled: bool, h: Option<Handler>, tsr: bool)
      requires s.node == this && Tree(s, v) && T.Searchable(v) && path != "" && k < |children| == |v.kids|
      modifies ctx
      ensures var g := T.GetFrom(v, k, path);
        if settled then h == g.handler && tsr == g.tsr
          && (ctx != null ==> ctx.values == T.Written(old(ctx.values), g.writes))
        else g == T.GetFrom(v, k + 1, path) && (ctx != null ==> ctx.values == old(ctx.values))
      decreases v, 0
    {
      Parts(s, v);
      ghost var sk, vk := s.kids[k], v.kids[k];
      Parts(sk, vk);
      var child := children[k];
      settled, h, tsr := false, None, false;
      if child.kind == Static {
        if path[0] != child.path[0] {
          return;
        }
        if |path| > |child.path| {
          if path[..|child.path|] != child.path {
            return;
          }
          var rest := path[|child.path|..];
          h, tsr := child.GetFromChild(rest, ctx, sk, vk);
          T.NoStrayWrites(vk, 0, rest);
          settled := h.Some? || tsr;
        } else if path == child.path {
          h, tsr := child.AtEnd(ctx, sk, vk);
          settled := true;
        }
      } else {
        settled, h, tsr := TryParam(k, path, ctx, s, v);
      }
    }

    /** `getFromChild` at a parameter child: its value is stored only once a handler is found. */
    method TryParam(k: nat, path: string, ctx: RequestCtx?, ghost s: Shape, ghost v: Trie)
      returns (settled: bool, h: Option<Handler>, tsr: bool)
      requires s.node == this && Tree(s, v) && T.Searchable(v) && path != "" && k < |children| == |v.kids|
        && v.kids[k].kind == Param
      modifies ctx
      ensures var g := T.GetFrom(v, k, path);
        if settled then h == g.handler && tsr == g.tsr
          && (ctx != null ==> ctx.values == T.Written(old(ctx.values), g.writes))
        else g == T.GetFrom(v, k + 1, path) && (ctx != null ==> ctx.values == old(ctx.values))
      decreases v, 0, 0
    {
      Parts(s, v);
      ghost var sk, vk := s.kids[k], v.kids[k];
      Parts(sk, vk);
      var child := children[k];
      settled, h, tsr := false, None, false;
      var end := SegmentEndIndex(path, false);
      if |path| > end {
        ghost var was := if ctx == null then map[] else ctx.values;
        h, tsr := child.GetFromChild(path[end..], ctx, sk, vk);
        T.NoStrayWrites(vk, 0, path[end..]);
        if tsr {
          return true, None, true;
        }
        if h.Some? {
          child.SaveParamValues(ctx, path[..end]);
          T.WrittenConcat(was, T.GetFromChild(vk, path[end..]).writes, [(vk.keys[0], path[..end])]);
          return true, h, false;
        }
      } else if child.tsr {
        return true, None, true;
      } else if child.handler.Some? {
        child.SaveParamValues(ctx, path[..end]);
        assert path[..end] == path;
        return true, child.handler, false;
      }
    }

    /** Case-insensitive search from this node: the buffer grows by the text found, or is left as it was. */
    method Find(path: string, buf: Buffer, ghost s: Shape, ghost v: Trie) returns (found: bool, tsr: bool)
      requires s.node == this && Tree(s, v) && T.Searchable(v)
      modifies buf
      ensures Found(T.Find(v, path), found, tsr, old(buf.B), buf.B)
      decreases v, 2
    {
      Parts(s, v);
      ghost var was := buf.B;
      if |path| > |this.path| {
        if !EqualFold(path[..|this.path|], this.path) {
          return false, false;
        }
        buf.WriteString(this.path);
        found, tsr := FindFromChild(path[|this.path|..], buf, s, v);
        if found {
          return;
        }
        buf.RemoveString(this.path);
        return false, false;
      }
      if EqualFold(path, this.path) {
        buf.WriteString(this.path);
        if this.tsr {
          if this.path == "/" {
            buf.RemoveString(this.path);
          } else {
            buf.WriteString("/");
          }
          return true, true;
        }
        if handler.Some? {
          return true, false;
        }
        buf.RemoveString(this.path);
      }
      return false, false;
    }

    method FindFromChild(path: string, buf: Buffer, ghost s: Shape, ghost v: Trie) returns (found: bool, tsr: bool)
      requires s.node == this && Tree(s, v) && T.Searchable(v) && path != ""
      modifies buf
      ensures Found(T.FindFromChild(v, path), found, tsr, old(buf.B), buf.B)
      decreases v, 1
    {
      Parts(s, v);
      var k := 0;
      while k < |children|
        invariant k <= |children| == |v.kids| && Tree(s, v) && Fields(this, v) && buf.B == old(buf.B)
        invariant T.FindFromChild(v, path) == T.FindFrom(v, k, path)
      {
        found, tsr := FindAt(k, path, buf, s, v);
        if found {
          return;
        }
        k := k + 1;
      }
      if wildcard.Some? {
        buf.WriteString(path);
        return true, false;
      }
      return false, false;
    }

    /** One turn of the loop of `findFromChild`. */
    method FindAt(k: nat, path: string, buf: Buffer, ghost s: Shape, ghost v: Trie) returns (found: bool, tsr: bool)
      requires s.node == this && Tree(s, v) && T.Searchable(v) && path != "" && k < |children| == |v.kids|
      modifies buf
      ensures if found then Found(T.FindFrom(v, k, path), true, tsr, old(buf.B), buf.B)
              else T.FindFrom(v, k, path) == T.FindFrom(v, k + 1, path) && buf.B == old(buf.B)
      decreases v, 0
    {
      Parts(s, v);
      ghost var sk, vk := s.kids[k], v.kids[k];
      Parts(sk, vk);
      var child := children[k];
      if child.kind == Static {
        found, tsr := child.Find(path, buf, sk, vk);
        return;
      }
      var end := SegmentEndIndex(path, false);
      buf.WriteString(path[..end]);
      if |path| > end {
        found, tsr := child.FindFromChild(path[end..], buf, sk, vk);
        if found {
          return;
        }
      } else {
        assert path[..end] == path;
        if child.tsr {
          buf.WriteString("/");
          return true, true;
        }
        if child.handler.Some? {
          return true, false;
        }
      }
      buf.RemoveString(path[..end]);
      return false, false;
    }
  }
}
