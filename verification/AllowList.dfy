/**
 The Allow list: method names in strictly ascending byte order, sorted in place and joined. Two
 listings of the same methods are equal, whatever order they were collected in.
 */
module AllowList {
  import opened Text

  /** Byte-wise order of strings. */
  predicate Lt(a: string, b: string) {
    b != "" && (a == "" || a[0] < b[0] || (a[0] == b[0] && Lt(a[1..], b[1..])))
  }

  lemma {:induction false} LtIsTotal(a: string, b: string)
    ensures (Lt(a, b) || Lt(b, a) || a == b) && !(Lt(a, b) && Lt(b, a)) && (a == b ==> !Lt(a, b))
  {
    if a != "" && b != "" && a[0] == b[0] {
      LtIsTotal(a[1..], b[1..]);
      assert a == [a[0]] + a[1..] && b == [b[0]] + b[1..];
    }
  }

  lemma {:induction false} LtIsTransitive(a: string, b: string, c: string)
    requires Lt(a, b) && Lt(b, c)
    ensures Lt(a, c)
  {
    if a != "" && a[0] == b[0] && b[0] == c[0] { LtIsTransitive(a[1..], b[1..], c[1..]); }
  }

  /** Strictly ascending. */
  ghost predicate Ascending(l: seq<string>) { forall i, j :: 0 <= i < j < |l| ==> Lt(l[i], l[j]) }

  /** `l` lists exactly the elements of `s`, in order, each once. */
  ghost predicate Listing(l: seq<string>, s: set<string>) {
    Ascending(l) && forall x :: x in l <==> x in s
  }

  /** Where `x` belongs in an ascending list that does not hold it. */
  function Place(l: seq<string>, x: string): (k: nat)
    ensures k <= |l| && (k < |l| ==> !Lt(l[k], x)) && forall i :: 0 <= i < k ==> Lt(l[i], x)
  {
    if l == [] || !Lt(l[0], x) then 0 else 1 + Place(l[1..], x)
  }

  lemma {:induction false} ListingWith(l: seq<string>, s: set<string>, x: string) returns (m: seq<string>)
    requires Listing(l, s) && x !in s
    ensures Listing(m, s + {x})
  {
    var k := Place(l, x);
    m := l[..k] + [x] + l[k..];
    forall i, j | 0 <= i < j < |m|
      ensures Lt(m[i], m[j])
    {
      if i == k {
        assert m[j] == l[j - 1] && l[j - 1] in l;
        LtIsTotal(l[k], x);
        if j - 1 > k { LtIsTransitive(x, l[k], l[j - 1]); }
      }
    }
    assert l == l[..k] + l[k..];
  }

  lemma {:induction false} ListingExists(s: set<string>)
    ensures exists l :: Listing(l, s)
    decreases |s|
  {
    if s == {} {
      assert Listing([], s);
    } else {
      var x :| x in s;
      ListingExists(s - {x});
      var l :| Listing(l, s - {x});
      var m := ListingWith(l, s - {x}, x);
      assert s - {x} + {x} == s;
    }
  }

  /** There is only one listing of a set. */
  lemma {:induction false} ListingIsUnique(a: seq<string>, b: seq<string>, s: set<string>)
    requires Listing(a, s) && Listing(b, s)
    ensures a == b
    decreases |a|
  {
    if a == [] {
      if b != [] { SameFirst(b, a, s); }
    } else {
      SameFirst(a, b, s);
      assert a == [a[0]] + a[1..] && b == [b[0]] + b[1..];
      ListingRest(a, s);
      ListingRest(b, s);
      ListingIsUnique(a[1..], b[1..], s - {a[0]});
    }
  }

  lemma {:induction false} SameFirst(a: seq<string>, b: seq<string>, s: set<string>)
    requires Listing(a, s) && Listing(b, s) && a != []
    ensures b != [] && a[0] == b[0]
  {
    assert a[0] in a && a[0] in b;
    assert b[0] in b && b[0] in a;
    var i :| 0 <= i < |a| && a[i] == b[0];
    var j :| 0 <= j < |b| && b[j] == a[0];
    LtIsTotal(a[0], b[0]);
  }

  lemma {:induction false} ListingRest(a: seq<string>, s: set<string>)
    requires Listing(a, s) && a != []
    ensures Listing(a[1..], s - {a[0]})
  {
    assert a == [a[0]] + a[1..];
    LtIsTotal(a[0], a[0]);
    forall x
      ensures x in a[1..] <==> x in s - {a[0]}
    {
      if x in a[1..] {
        var i :| 0 <= i < |a[1..]| && a[1..][i] == x;
        assert Lt(a[0], a[i + 1]);
      }
    }
  }

  ghost function TheListing(s: set<string>): (l: seq<string>)
    ensures Listing(l, s)
  {
    ListingExists(s);
    var l :| Listing(l, s);
    l
  }

  /** `strings.Join` with ", ". */
  function Join(l: seq<string>): string {
    if l == [] then "" else if |l| == 1 then l[0] else l[0] + ", " + Join(l[1..])
  }

  ghost predicate NoCommas(l: seq<string>) { forall i :: 0 <= i < |l| ==> ',' !in l[i] }

  /** The joined text tells the list, as long as there is one and no element holds a comma. */
  lemma {:induction false} JoinInjective(a: seq<string>, b: seq<string>)
    requires a != [] && b != [] && NoCommas(a) && NoCommas(b) && Join(a) == Join(b)
    ensures a == b
  {
    FirstIsShorter(a, b);
    FirstIsShorter(b, a);
    var n := |a[0]|;
    assert Join(a)[..n] == a[0] && Join(b)[..n] == b[0];
    if |a| > 1 {
      assert Join(a)[n..] == ", " + Join(a[1..]) && Join(b)[n..] == ", " + Join(b[1..]);
      assert Join(a)[n..][2..] == Join(a[1..]) && Join(b)[n..][2..] == Join(b[1..]);
      JoinInjective(a[1..], b[1..]);
      assert a == [a[0]] + a[1..] && b == [b[0]] + b[1..];
    }
  }

  lemma {:induction false} FirstIsShorter(a: seq<string>, b: seq<string>)
    requires a != [] && b != [] && NoCommas(a) && NoCommas(b) && Join(a) == Join(b)
    ensures |a[0]| <= |b[0]| && (|b| > 1 ==> |a| > 1)
  {
    assert a[0] <= Join(a);
    if |b| > 1 { assert Join(b)[|b[0]|] == ','; }
  }

  // ----- sorting in place ---------------------------------------------------------------------------

  /** Ascending up to `i`, except that the element at `j` may belong further left. */
  ghost predicate AscendingBut(l: seq<string>, i: nat, j: nat)
    requires i < |l|
  {
    forall a, b :: 0 <= a < b <= i && b != j ==> Lt(l[a], l[b])
  }

  /** A swap rearranges: same elements, none repeated. */
  lemma {:induction false} SwapRearranges(l: seq<string>, j: nat)
    requires 0 < j < |l| && NoRepeat(l)
    ensures NoRepeat(Swapped(l, j)) && forall x :: x in Swapped(l, j) <==> x in l
  {
    var m := Swapped(l, j);
    forall x
      ensures x in m <==> x in l
    {
      if x in l {
        var i :| 0 <= i < |l| && l[i] == x;
        assert m[if i == j then j - 1 else if i == j - 1 then j else i] == x;
      }
    }
  }

  lemma {:induction false} SiftedAscends(l: seq<string>, i: nat, j: nat)
    requires j <= i < |l| && NoRepeat(l) && AscendingBut(l, i, j) && (j > 0 ==> !Lt(l[j], l[j - 1]))
    ensures Ascending(l[..i + 1])
  {
    forall a, b | 0 <= a < b <= i
      ensures Lt(l[a], l[b])
    {
      if b == j {
        LtIsTotal(l[j], l[j - 1]);
        assert l[j - 1] != l[j];
        if a < j - 1 { LtIsTransitive(l[a], l[j - 1], l[j]); }
      }
    }
  }

  /** The two nested loops that sort the collected methods in place. */
  method SortInPlace(allowed: array<string>)
    requires NoRepeat(allowed[..])
    modifies allowed
    ensures Ascending(allowed[..]) && forall x :: x in allowed[..] <==> x in old(allowed[..])
  {
    var i := 1;
    assert allowed[..] == old(allowed[..]);
    while i < allowed.Length
      invariant 1 <= i && (i <= allowed.Length || allowed.Length == 0)
      invariant NoRepeat(allowed[..]) && (forall x :: x in allowed[..] <==> x in old(allowed[..]))
      invariant i <= allowed.Length ==> Ascending(allowed[..][..i])
    {
      SiftDown(allowed, i);
      i := i + 1;
    }
    assert allowed.Length > 0 ==> allowed[..][..allowed.Length] == allowed[..];
  }

  method SiftDown(allowed: array<string>, i: nat)
    requires i < allowed.Length && NoRepeat(allowed[..]) && Ascending(allowed[..][..i])
    modifies allowed
    ensures NoRepeat(allowed[..]) && Ascending(allowed[..][..i + 1])
    ensures forall x :: x in allowed[..] <==> x in old(allowed[..])
  {
    var j: nat := i;
    ghost var l := allowed[..];
    assert AscendingBut(l, i, i) by {
      forall a, b | 0 <= a < b <= i && b != i
        ensures Lt(l[a], l[b])
      {
        assert l[..i][a] == l[a] && l[..i][b] == l[b];
      }
    }
    while j > 0 && Lt(allowed[j], allowed[j - 1])
      invariant j <= i && l == allowed[..] && NoRepeat(l) && AscendingBut(l, i, j)
      invariant forall x :: x in l <==> x in old(allowed[..])
    {
      SwapRearranges(l, j);
      allowed[j], allowed[j - 1] := allowed[j - 1], allowed[j];
      l := Swapped(l, j);
      assert l == allowed[..];
      j := j - 1;
    }
    SiftedAscends(l, i, j);
  }
}
