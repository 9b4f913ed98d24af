/**
 Text helpers shared by the router model. A `string` stands for a byte string: one
 `char` per byte, as the routing code sees ASCII paths.
 */
module Text {

  datatype Option<+T> = None | Some(value: T)

  /** Index of the first occurrence of `c`, or the length when there is none. */
  function IndexOf(s: string, c: char): (i: nat)
    ensures i <= |s|
    ensures c !in s[..i]
    ensures i < |s| ==> s[i] == c
  {
    if s == "" || s[0] == c then 0
    else
      var i := IndexOf(s[1..], c) + 1;
      assert s[..i] == [s[0]] + s[1..][..i - 1];
      i
  }

  /** Length of the longest common prefix, the specification of `LongestCommonPrefix`. */
  function Lcp(a: string, b: string): (i: nat)
    ensures i <= |a| && i <= |b|
    ensures a[..i] == b[..i]
    ensures i < |a| && i < |b| ==> a[i] != b[i]
  {
    if a == "" || b == "" || a[0] != b[0] then 0
    else
      var i := Lcp(a[1..], b[1..]) + 1;
      assert a[..i] == [a[0]] + a[1..][..i - 1];
      assert b[..i] == [b[0]] + b[1..][..i - 1];
      i
  }

  /** The scan of `longestCommonPrefix`, which consumes both strings character by character. */
  method LongestCommonPrefix(a: string, b: string) returns (i: nat)
    ensures i == Lcp(a, b)
  {
    i := 0;
    var restA, restB := a, b;
    var e := if |a| < |b| then |a| else |b|;
    while i < e
      invariant i <= e
      invariant restA == a[i..] && restB == b[i..]
      invariant Lcp(a, b) == i + Lcp(restA, restB)
    {
      var ra, rb := restA[0], restB[0];
      if ra != rb {
        return i;
      }
      restA, restB := restA[1..], restB[1..];
      i := i + 1;
    }
  }

  /** Index where the leading path segment ends; with `includeTsr` a lone final slash belongs to it. */
  function SegmentEnd(path: string, includeTsr: bool): (end: nat)
    ensures end <= |path|
    ensures !includeTsr ==> '/' !in path[..end] && (end < |path| ==> path[end] == '/')
  {
    var end := IndexOf(path, '/');
    if includeTsr && path[end..] == "/" then end + 1 else end
  }

  method SegmentEndIndex(path: string, includeTsr: bool) returns (end: nat)
    ensures end == SegmentEnd(path, includeTsr)
  {
    end := 0;
    while end < |path| && path[end] != '/'
      invariant end <= |path|
      invariant IndexOf(path, '/') == end + IndexOf(path[end..], '/')
    {
      assert path[end..][1..] == path[end + 1..];
      end := end + 1;
    }
    if includeTsr && path[end..] == "/" {
      end := end + 1;
    }
  }

  /** ASCII case folding, the part of `strings.EqualFold` that byte paths exercise. */
  function Fold(c: char): char {
    if 'A' <= c <= 'Z' then c - 'A' + 'a' else c
  }

  predicate EqualFold(a: string, b: string) {
    |a| == |b| && forall i :: 0 <= i < |a| ==> Fold(a[i]) == Fold(b[i])
  }

  /** `s` without its element at `k`. */
  function Without<T>(s: seq<T>, k: nat): seq<T>
    requires k < |s|
  {
    s[..k] + s[k + 1..]
  }

  lemma {:induction false} WithoutMultiset<T>(s: seq<T>, k: nat)
    requires k < |s|
    ensures multiset(Without(s, k)) == multiset(s) - multiset{s[k]}
  {
    assert s == s[..k] + [s[k]] + s[k + 1..];
  }

  /** Removing the same element from two arrangements of the same elements leaves arrangements of the same elements. */
  lemma {:induction false} DropCommon<T>(a: seq<T>, b: seq<T>) returns (k: nat)
    requires a != [] && multiset(a) == multiset(b)
    ensures k < |b| && b[k] == a[0] && multiset(a[1..]) == multiset(Without(b, k))
  {
    assert a[0] in multiset(b);
    k :| 0 <= k < |b| && b[k] == a[0];
    WithoutMultiset(a, 0);
    WithoutMultiset(b, k);
    assert Without(a, 0) == a[1..];
  }

  /** `s` with the element at `j` and the one before it exchanged. */
  function Swapped<T>(s: seq<T>, j: nat): seq<T>
    requires 0 < j < |s|
  {
    s[j := s[j - 1]][j - 1 := s[j]]
  }

  ghost predicate NoRepeat(l: seq<string>) { forall i, j :: 0 <= i < j < |l| ==> l[i] != l[j] }

  lemma {:induction false} Assoc<T>(a: seq<T>, b: seq<T>, c: seq<T>)
    ensures a + b + c == a + (b + c)
  {
  }

  lemma {:induction false} SumSwap<T>(
    x: multiset<T>, y: multiset<T>, y': multiset<T>, loss: multiset<T>, gain: multiset<T>)
    requires y' + loss == y + gain
    ensures (x + y') + loss == (x + y) + gain
  {
    assert (x + y') + loss == x + (y' + loss);
    assert (x + y) + gain == x + (y + gain);
  }

  /** Two positions of one arrangement correspond to two positions of another arrangement of the same elements. */
  lemma {:induction false} PairOf<T>(a: seq<T>, b: seq<T>, i: nat, j: nat) returns (p: nat, q: nat)
    requires multiset(a) == multiset(b) && i < j < |b|
    ensures p < |a| && q < |a| && p != q && a[p] == b[i] && a[q] == b[j]
  {
    assert b[j] in multiset(a);
    q :| 0 <= q < |a| && a[q] == b[j];
    WithoutMultiset(a, q);
    WithoutMultiset(b, j);
    p := AnotherPlace(a, q, b[i], Without(b, j), i);
  }

  /** An element of what is left without position `q` has another position. */
  lemma {:induction false} AnotherPlace<T>(a: seq<T>, q: nat, x: T, rest: seq<T>, i: nat) returns (p: nat)
    requires q < |a| && multiset(Without(a, q)) == multiset(rest) && i < |rest| && rest[i] == x
    ensures p < |a| && p != q && a[p] == x
  {
    assert rest[i] in multiset(Without(a, q));
    var m :| 0 <= m < |Without(a, q)| && Without(a, q)[m] == x;
    p := if m < q then m else m + 1;
  }
}
