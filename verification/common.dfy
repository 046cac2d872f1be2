/** Small shared vocabulary: optional values and sequence helpers that the
    Python code expresses with `None`, list comprehensions and `set()`. */
module Common {

  /** A Python value that may be `None`. */
  datatype Option<+T> = None | Some(value: T) {
    function GetOr(default: T): T {
      match this
      case Some(v) => v
      case None => default
    }
  }

  /** The elements of `s` as a set. */
  function Elems<T(!new)>(s: seq<T>): (r: set<T>)
    ensures forall x :: x in r <==> x in s
  {
    set x | x in s
  }

  /** The number of occurrences of `x` in `s`. */
  function Occurrences<T(==)>(s: seq<T>, x: T): (r: nat)
    ensures r <= |s|
    ensures r == multiset(s)[x]
  {
    if s == [] then 0
    else
      assert s == [s[0]] + s[1..];
      (if s[0] == x then 1 else 0) + Occurrences(s[1..], x)
  }

  /** `s` lists its elements in strictly increasing order. */
  predicate StrictlyIncreasing(s: seq<int>) {
    forall i, j :: 0 <= i < j < |s| ==> s[i] < s[j]
  }

  /** A smaller first element keeps a sequence strictly increasing. */
  lemma ConsIncreasing(x: int, t: seq<int>)
    requires StrictlyIncreasing(t) && forall j :: 0 <= j < |t| ==> x < t[j]
    ensures StrictlyIncreasing([x] + t)
  {
    var r := [x] + t;
    forall i, j | 0 <= i < j < |r|
      ensures r[i] < r[j]
    {
      assert r[j] == t[j - 1];
      if i > 0 {
        assert r[i] == t[i - 1];
      }
    }
  }

  /** `s` lists its elements in strictly decreasing order. */
  predicate StrictlyDecreasing(s: seq<int>) {
    forall i, j :: 0 <= i < j < |s| ==> s[i] > s[j]
  }

  /** The position of the first element in `s[k..hi]` satisfying `p`. */
  function FirstIn<T>(s: seq<T>, p: T -> bool, k: nat, hi: nat): (r: Option<nat>)
    requires k <= hi <= |s|
    ensures r.Some? ==> k <= r.value < hi && p(s[r.value])
    ensures r.Some? ==> forall j :: k <= j < r.value ==> !p(s[j])
    ensures r.None? <==> forall j :: k <= j < hi ==> !p(s[j])
    decreases hi - k
  {
    if k == hi then None
    else if p(s[k]) then Some(k)
    else FirstIn(s, p, k + 1, hi)
  }

  /** The 1-based positions `i <= k` whose element satisfies `p`
      (`{i for i, x in enumerate(xs, 1) if p(x)}` over the first `k`). */
  function IndicesWhere<T>(xs: seq<T>, p: T -> bool, k: nat): (r: set<int>)
    requires k <= |xs|
    ensures forall i :: i in r <==> 1 <= i <= k && p(xs[i - 1])
  {
    if k == 0 then {}
    else IndicesWhere(xs, p, k - 1) + (if p(xs[k - 1]) then {k} else {})
  }

  /** Symmetric difference: the effect of toggling every element of `b`. */
  function SymDiff(a: set<int>, b: set<int>): (r: set<int>)
    ensures forall i :: i in r <==> (i in a) != (i in b)
  {
    (a - b) + (b - a)
  }

  lemma SymDiffAssoc(a: set<int>, b: set<int>, c: set<int>)
    ensures SymDiff(SymDiff(a, b), c) == SymDiff(a, SymDiff(b, c))
  {
  }

  lemma SymDiffSelf(a: set<int>, b: set<int>)
    ensures SymDiff(SymDiff(a, b), b) == a
  {
  }

  /** The integers `lo..hi` inclusive, as a set. */
  function Range(lo: int, hi: int): (r: set<int>)
    ensures forall i :: i in r <==> lo <= i <= hi
    decreases hi - lo
  {
    if lo > hi then {} else {lo} + Range(lo + 1, hi)
  }

  /** The concatenation of a sequence of sequences. */
  function Flatten<T>(xss: seq<seq<T>>): seq<T> {
    if xss == [] then [] else xss[0] + Flatten(xss[1..])
  }

  /** Flattening distributes over concatenation. */
  lemma {:induction false} FlattenAppend<T>(a: seq<seq<T>>, b: seq<seq<T>>)
    ensures Flatten(a + b) == Flatten(a) + Flatten(b)
  {
    if a == [] {
      assert a + b == b;
    } else {
      FlattenAppend(a[1..], b);
      assert (a + b)[0] == a[0];
      assert (a + b)[1..] == a[1..] + b;
      ConcatAssoc(a[0], Flatten(a[1..]), Flatten(b));
    }
  }

  lemma ConcatAssoc<T>(x: seq<T>, y: seq<T>, z: seq<T>)
    ensures x + (y + z) == (x + y) + z
  {
  }

  /** `[s[i:i + size] for i in range(0, len(s), size)]`: consecutive
      batches of at most `size` elements. */
  function Chunks<T>(s: seq<T>, size: nat): (r: seq<seq<T>>)
    requires size > 0
    ensures forall i :: 0 <= i < |r| ==> 0 < |r[i]| <= size
    decreases |s|
  {
    if s == [] then [] else if |s| <= size then [s] else [s[..size]] + Chunks(s[size..], size)
  }

  /** The batches put together give back the input, and there are
      `ceil(n / size)` of them. */
  lemma ChunksFlatten<T>(s: seq<T>, size: nat)
    requires size > 0
    ensures Flatten(Chunks(s, size)) == s
    ensures |Chunks(s, size)| == CeilDiv(|s|, size)
  {
    ChunksJoin(s, size);
    ChunksCount(s, size);
  }

  lemma {:induction false} ChunksJoin<T>(s: seq<T>, size: nat)
    requires size > 0
    ensures Flatten(Chunks(s, size)) == s
    decreases |s|
  {
    if s != [] {
      if |s| <= size {
        assert Flatten([s]) == s + Flatten([]);
      } else {
        ChunksJoin(s[size..], size);
        var rest := Chunks(s[size..], size);
        assert Chunks(s, size) == [s[..size]] + rest;
        assert Flatten([s[..size]] + rest) == s[..size] + Flatten(rest);
        assert s == s[..size] + s[size..];
      }
    }
  }

  lemma {:induction false} ChunksCount<T>(s: seq<T>, size: nat)
    requires size > 0
    ensures |Chunks(s, size)| == CeilDiv(|s|, size)
    decreases |s|
  {
    if s != [] {
      if |s| <= size {
        assert CeilDiv(|s|, size) == 1 by {
          assert size <= |s| + size - 1 < 2 * size;
          DivBetween(|s| + size - 1, size, 1);
        }
      } else {
        ChunksCount(s[size..], size);
        var n := |s|;
        assert CeilDiv(n, size) == CeilDiv(n - size, size) + 1 by {
          assert n + size - 1 == (n - size + size - 1) + size;
          DivPlusOne(n - size + size - 1, size);
        }
      }
    }
  }

  lemma DivBetween(x: int, d: int, q: int)
    requires d > 0 && q * d <= x < (q + 1) * d
    ensures x / d == q
  {
    var r := x / d;
    var m := x % d;
    assert x == r * d + m && 0 <= m < d;
    if r < q {
      MulLe(r + 1, q, d);
    } else if r > q {
      MulLe(q + 1, r, d);
    }
  }

  lemma MulLe(a: int, b: int, d: int)
    requires a <= b && d >= 0
    ensures a * d <= b * d
  {
    assert b * d - a * d == (b - a) * d;
  }

  lemma DivPlusOne(x: nat, d: nat)
    requires d > 0
    ensures (x + d) / d == x / d + 1
  {
    DivBetween(x + d, d, x / d + 1);
  }

  function Min(a: int, b: int): (r: int)
    ensures r <= a && r <= b && (r == a || r == b)
  {
    if a <= b then a else b
  }

  function Max(a: int, b: int): (r: int)
    ensures r >= a && r >= b && (r == a || r == b)
  {
    if a >= b then a else b
  }

  /** Python's `math.ceil(n / d)` for a positive divisor. */
  function CeilDiv(n: nat, d: nat): (r: nat)
    requires d > 0
    ensures (r - 1) * d < n <= r * d || (n == 0 && r == 0)
  {
    (n + d - 1) / d
  }
}
