/** Sequence helpers shared by the history store and the pattern learner: duplicate-freedom,
    filtering, a descending sort on an integer key, sums and means. They stand for the
    collection library calls (`filter`, `sorted(by:)`, `reduce`) the app relies on. */
module Collections {

  function Min(a: int, b: int): int {
    if a <= b then a else b
  }

  predicate NoDuplicates<T(==)>(s: seq<T>) {
    forall i, j :: 0 <= i < j < |s| ==> s[i] != s[j]
  }

  /** A value counted at most once in `s` sits at no more than one index. */
  lemma AtMostOnce<T>(s: seq<T>, x: T)
    requires multiset(s)[x] <= 1
    ensures forall i, j :: 0 <= i < j < |s| && s[i] == x ==> s[j] != x
  {
    forall i, j | 0 <= i < j < |s| && s[i] == x
      ensures s[j] != x
    {
      assert s == s[..j] + s[j..];
      assert multiset(s) == multiset(s[..j]) + multiset(s[j..]);
      assert s[..j][i] == x;
      assert x in multiset(s[..j]);
      assert s[j..][0] == s[j];
    }
  }

  /** A duplicate-free sequence counts every value at most once. */
  lemma {:induction false} NoDuplicatesCountsOnce<T>(s: seq<T>, x: T)
    requires NoDuplicates(s)
    ensures multiset(s)[x] <= 1
  {
    if s != [] {
      assert s == [s[0]] + s[1..];
      assert NoDuplicates(s[1..]) by {
        forall i, j | 0 <= i < j < |s| - 1 ensures s[1..][i] != s[1..][j] {
          assert s[1..][i] == s[i + 1] && s[1..][j] == s[j + 1];
        }
      }
      NoDuplicatesCountsOnce(s[1..], x);
      if x == s[0] {
        forall k | 0 <= k < |s| - 1 ensures s[1..][k] != x {
          assert s[1..][k] == s[k + 1];
        }
        assert x !in s[1..];
      }
    }
  }

  /** A prefix holds no element more often than the whole sequence. */
  lemma PrefixSubBag<T>(s: seq<T>, n: nat)
    requires n <= |s|
    ensures multiset(s[..n]) <= multiset(s)
  {
    assert s == s[..n] + s[n..];
  }

  /** Rearranging a duplicate-free sequence leaves it duplicate-free. */
  lemma PermutationKeepsNoDuplicates<T>(s: seq<T>, t: seq<T>)
    requires NoDuplicates(s) && multiset(s) == multiset(t)
    ensures NoDuplicates(t)
  {
    forall i, j | 0 <= i < j < |t|
      ensures t[i] != t[j]
    {
      NoDuplicatesCountsOnce(s, t[i]);
      AtMostOnce(t, t[i]);
    }
  }

  /** The elements of `s` for which `keep` holds, in their original order. */
  function Filter<T(!new)>(s: seq<T>, keep: T -> bool): (r: seq<T>)
    ensures |r| <= |s|
    ensures forall x :: multiset(r)[x] == if keep(x) then multiset(s)[x] else 0
    ensures forall i :: 0 <= i < |r| ==> keep(r[i]) && r[i] in s
  {
    if s == [] then []
    else
      assert s == [s[0]] + s[1..];
      var rest := Filter(s[1..], keep);
      if keep(s[0]) then [s[0]] + rest else rest
  }

  /** `s` is ordered by non-increasing `key`. */
  predicate SortedDescBy<T>(s: seq<T>, key: T -> int) {
    forall i, j :: 0 <= i < j < |s| ==> key(s[j]) <= key(s[i])
  }

  /** Every element of `s` has a key of at most `b`. */
  predicate KeysAtMost<T>(s: seq<T>, key: T -> int, b: int) {
    forall i :: 0 <= i < |s| ==> key(s[i]) <= b
  }

  /** Adding one element with a key of at most `b` to a multiset of such elements keeps the bound. */
  lemma KeysAtMostGrow<T>(t: seq<T>, u: seq<T>, x: T, key: T -> int, b: int)
    requires multiset(t) == multiset(u) + multiset{x}
    requires KeysAtMost(u, key, b) && key(x) <= b
    ensures KeysAtMost(t, key, b)
  {
    forall k | 0 <= k < |t| ensures key(t[k]) <= b {
      assert t[k] in multiset(t);
      if t[k] != x {
        assert t[k] in multiset(u);
        var m :| 0 <= m < |u| && u[m] == t[k];
      }
    }
  }

  /** Putting an element in front of a sorted sequence whose keys do not exceed its own keeps it sorted. */
  lemma ConsSorted<T>(y: T, t: seq<T>, key: T -> int)
    requires SortedDescBy(t, key) && KeysAtMost(t, key, key(y))
    ensures SortedDescBy([y] + t, key)
  {
    forall i, j | 0 <= i < j < |t| + 1 ensures key(([y] + t)[j]) <= key(([y] + t)[i]) {
      assert ([y] + t)[j] == t[j - 1];
      if i > 0 {
        assert ([y] + t)[i] == t[i - 1];
      }
    }
  }

  /** Inserts `x` into a sequence sorted by descending key, ahead of the elements whose key equals its own. */
  function InsertDescBy<T>(x: T, s: seq<T>, key: T -> int): (r: seq<T>)
    requires SortedDescBy(s, key)
    ensures |r| == |s| + 1
    ensures multiset(r) == multiset(s) + multiset{x}
    ensures SortedDescBy(r, key)
  {
    if s == [] || key(s[0]) <= key(x) then
      assert KeysAtMost(s, key, key(x)) by {
        forall i | 0 <= i < |s| ensures key(s[i]) <= key(x) {
          assert key(s[i]) <= key(s[0]);
        }
      }
      ConsSorted(x, s, key);
      [x] + s
    else
      assert s == [s[0]] + s[1..];
      var rest := InsertDescBy(x, s[1..], key);
      assert KeysAtMost(s[1..], key, key(s[0])) by {
        forall i | 0 <= i < |s| - 1 ensures key(s[1..][i]) <= key(s[0]) {
          assert s[1..][i] == s[i + 1];
        }
      }
      KeysAtMostGrow(rest, s[1..], x, key, key(s[0]));
      ConsSorted(s[0], rest, key);
      [s[0]] + rest
  }

  /** One rearrangement of `s` ordered by descending key (equal keys keep their relative order). */
  function SortDescBy<T>(s: seq<T>, key: T -> int): (r: seq<T>)
    ensures |r| == |s|
    ensures multiset(r) == multiset(s)
    ensures SortedDescBy(r, key)
  {
    if s == [] then []
    else
      assert s == [s[0]] + s[1..];
      InsertDescBy(s[0], SortDescBy(s[1..], key), key)
  }

  /** In a sequence sorted by descending key, whatever lies beyond a prefix has a key no
      larger than any key in the prefix. */
  lemma SortedPrefixDominates<T>(s: seq<T>, n: nat, key: T -> int)
    requires SortedDescBy(s, key) && n <= |s|
    ensures forall x, k :: x in multiset(s) - multiset(s[..n]) && k in s[..n] ==> key(x) <= key(k)
  {
    var kept, dropped := s[..n], s[n..];
    assert s == kept + dropped;
    assert multiset(s) == multiset(kept) + multiset(dropped);
    forall x, k | x in multiset(s) - multiset(kept) && k in kept
      ensures key(x) <= key(k)
    {
      assert x in multiset(dropped);
      var q :| 0 <= q < |dropped| && dropped[q] == x;
      var p :| 0 <= p < n && kept[p] == k;
      assert s[n + q] == x && s[p] == k;
    }
  }

  function Sum(xs: seq<int>): int {
    if xs == [] then 0 else xs[0] + Sum(xs[1..])
  }

  lemma {:induction false} SumBounds(xs: seq<int>, lo: int, hi: int)
    requires forall i :: 0 <= i < |xs| ==> lo <= xs[i] <= hi
    ensures |xs| * lo <= Sum(xs) <= |xs| * hi
  {
    if xs != [] {
      SumBounds(xs[1..], lo, hi);
    }
  }

  /** A sequence of zeros sums to zero. */
  lemma {:induction false} SumOfZeros(xs: seq<int>)
    requires forall i :: 0 <= i < |xs| ==> xs[i] == 0
    ensures Sum(xs) == 0
  {
    if xs != [] {
      SumOfZeros(xs[1..]);
    }
  }

  /** Adding one at a single position adds one to the sum. */
  lemma {:induction false} SumBumpOne(a: seq<int>, b: seq<int>, j: nat)
    requires |a| == |b| && j < |a|
    requires forall i :: 0 <= i < |a| ==> b[i] == a[i] + (if i == j then 1 else 0)
    ensures Sum(b) == Sum(a) + 1
  {
    if j == 0 {
      assert a[1..] == b[1..];
    } else {
      SumBumpOne(a[1..], b[1..], j - 1);
    }
  }

  /** Index of a smallest element. */
  function MinIndex(xs: seq<int>): (k: nat)
    requires |xs| > 0
    ensures k < |xs| && forall i :: 0 <= i < |xs| ==> xs[k] <= xs[i]
  {
    if |xs| == 1 then 0
    else
      var k := MinIndex(xs[1..]) + 1;
      if xs[0] <= xs[k] then 0 else k
  }

  /** Index of a largest element. */
  function MaxIndex(xs: seq<int>): (k: nat)
    requires |xs| > 0
    ensures k < |xs| && forall i :: 0 <= i < |xs| ==> xs[i] <= xs[k]
  {
    if |xs| == 1 then 0
    else
      var k := MaxIndex(xs[1..]) + 1;
      if xs[k] <= xs[0] then 0 else k
  }

  /** A real quotient by a positive divisor lies between the bounds the dividend gives it. */
  lemma QuotientBetween(s: real, n: real, lo: real, hi: real)
    requires n > 0.0 && n * lo <= s <= n * hi
    ensures lo <= s / n <= hi
  {
    var m := s / n;
    assert m * n == s;
  }

  /** Converting a product of integers to a real is the product of the converted factors. */
  lemma CastProduct(a: int, b: int)
    ensures (a * b) as real == (a as real) * (b as real)
  {
  }

  /** The real quotient of an integer sum by a positive count multiplies back to the sum
      and lies between the bounds the sum has per element. */
  lemma QuotientOfSum(s: int, n: int, lo: int, hi: int)
    requires n > 0 && n * lo <= s <= n * hi
    ensures (s as real / n as real) * (n as real) == s as real
    ensures lo as real <= s as real / n as real <= hi as real
  {
    CastProduct(n, lo);
    CastProduct(n, hi);
    QuotientBetween(s as real, n as real, lo as real, hi as real);
  }

  /** Arithmetic mean, as the real quotient of the sum by the count; it lies between the
      smallest and the largest element. */
  function Mean(xs: seq<int>): (m: real)
    requires |xs| > 0
    ensures m * (|xs| as real) == Sum(xs) as real
    ensures xs[MinIndex(xs)] as real <= m <= xs[MaxIndex(xs)] as real
  {
    var n, s := |xs|, Sum(xs);
    var lo, hi := xs[MinIndex(xs)], xs[MaxIndex(xs)];
    SumBounds(xs, lo, hi);
    QuotientOfSum(s, n, lo, hi);
    s as real / n as real
  }
}
