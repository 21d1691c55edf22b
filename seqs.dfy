/** The array combinators the views use (`filter`, `findIndex`, `find`, `reduce` with `+`). */
module Seqs {
  import opened Wrappers

  /** `s.filter(p)`: the elements of `s` that satisfy `p`, in their original order. */
  function Filter<T(!new)>(s: seq<T>, p: T -> bool): (r: seq<T>)
    ensures |r| <= |s|
    decreases |s|
  {
    if s == [] then [] else (if p(s[0]) then [s[0]] else []) + Filter(s[1..], p)
  }

  /** An element is kept by a filter exactly when it occurs in the input and passes the test. */
  lemma {:induction false} FilterMember<T(!new)>(s: seq<T>, p: T -> bool, x: T)
    ensures x in Filter(s, p) <==> x in s && p(x)
    decreases |s|
  {
    if s != [] {
      FilterMember(s[1..], p, x);
      assert x in s <==> x == s[0] || x in s[1..];
    }
  }

  /** FilterMember for every element at once. */
  lemma FilterMembers<T(!new)>(s: seq<T>, p: T -> bool)
    ensures forall x :: x in Filter(s, p) <==> x in s && p(x)
  {
    forall x
      ensures x in Filter(s, p) <==> x in s && p(x)
    {
      FilterMember(s, p, x);
    }
  }

  /** Filtering distributes over concatenation, so it keeps the relative order of what it keeps. */
  lemma {:induction false} FilterConcat<T(!new)>(s: seq<T>, t: seq<T>, p: T -> bool)
    ensures Filter(s + t, p) == Filter(s, p) + Filter(t, p)
    decreases |s|
  {
    if s == [] {
      assert s + t == t;
    } else {
      var h := if p(s[0]) then [s[0]] else [];
      var st := s + t;
      assert st[0] == s[0] && st[1..] == s[1..] + t;
      assert Filter(st, p) == h + Filter(s[1..] + t, p);
      assert Filter(s, p) == h + Filter(s[1..], p);
      FilterConcat(s[1..], t, p);
      assert h + (Filter(s[1..], p) + Filter(t, p)) == (h + Filter(s[1..], p)) + Filter(t, p);
    }
  }

  /** A filter that every element passes is the identity. */
  lemma {:induction false} FilterAll<T(!new)>(s: seq<T>, p: T -> bool)
    requires forall x :: x in s ==> p(x)
    ensures Filter(s, p) == s
    decreases |s|
  {
    if s != [] {
      assert s == [s[0]] + s[1..];
      FilterAll(s[1..], p);
    }
  }

  /** A filter that no element passes keeps nothing. */
  lemma {:induction false} FilterNone<T(!new)>(s: seq<T>, p: T -> bool)
    requires forall x :: x in s ==> !p(x)
    ensures Filter(s, p) == []
    decreases |s|
  {
    if s != [] {
      assert s[0] in s;
      FilterNone(s[1..], p);
    }
  }

  /** Two tests that agree everywhere filter alike. */
  lemma {:induction false} FilterSame<T(!new)>(s: seq<T>, p: T -> bool, q: T -> bool)
    requires forall x :: p(x) == q(x)
    ensures Filter(s, p) == Filter(s, q)
    decreases |s|
  {
    if s != [] {
      FilterSame(s[1..], p, q);
    }
  }

  /** Two filters that never both accept an element keep at most |s| elements between them. */
  lemma {:induction false} FilterDisjointLength<T(!new)>(s: seq<T>, p: T -> bool, q: T -> bool)
    requires forall x :: !(p(x) && q(x))
    ensures |Filter(s, p)| + |Filter(s, q)| <= |s|
    decreases |s|
  {
    if s != [] {
      FilterDisjointLength(s[1..], p, q);
    }
  }

  /** A filter and its complement split `s` exactly. */
  lemma {:induction false} FilterComplementLength<T(!new)>(s: seq<T>, p: T -> bool, q: T -> bool)
    requires forall x :: q(x) == !p(x)
    ensures |Filter(s, p)| + |Filter(s, q)| == |s|
    decreases |s|
  {
    if s != [] {
      FilterComplementLength(s[1..], p, q);
    }
  }

  /** A filter keeps everything exactly when every element passes it. */
  lemma {:induction false} FilterLengthFull<T(!new)>(s: seq<T>, p: T -> bool)
    ensures |Filter(s, p)| == |s| <==> forall x :: x in s ==> p(x)
    decreases |s|
  {
    if s != [] {
      FilterLengthFull(s[1..], p);
      assert forall x :: x in s <==> x == s[0] || x in s[1..];
    }
  }

  /** `s.findIndex(p)`: the first index whose element satisfies `p`, or -1. */
  function FindIndex<T>(s: seq<T>, p: T -> bool): (k: int)
    ensures -1 <= k < |s|
    ensures k == -1 <==> forall i :: 0 <= i < |s| ==> !p(s[i])
    ensures 0 <= k ==> p(s[k]) && forall i :: 0 <= i < k ==> !p(s[i])
    decreases |s|
  {
    if s == [] then -1
    else if p(s[0]) then 0
    else
      var k := FindIndex(s[1..], p);
      if k == -1 then -1 else k + 1
  }

  /** `s.find(p)`: the first element that satisfies `p`, or `undefined` (None). */
  function Find<T(!new)>(s: seq<T>, p: T -> bool): (r: Option<T>)
    ensures r.None? <==> forall x :: x in s ==> !p(x)
    ensures r.Some? ==> r.value in s && p(r.value)
  {
    var k := FindIndex(s, p);
    if k < 0 then None else Some(s[k])
  }

  /** What `find` returns is the FIRST element that satisfies `p`: the one at the first index where `p` holds. */
  lemma FindFirst<T(!new)>(s: seq<T>, p: T -> bool)
    ensures forall k :: 0 <= k < |s| && p(s[k]) && (forall i :: 0 <= i < k ==> !p(s[i])) ==> Find(s, p) == Some(s[k])
  {
    var j := FindIndex(s, p);
    forall k | 0 <= k < |s| && p(s[k]) && (forall i :: 0 <= i < k ==> !p(s[i]))
      ensures Find(s, p) == Some(s[k])
    {
      assert j == k;
    }
  }

  /** `s.reduce((sum, x) => sum + f(x), 0)` over exact integers. */
  function SumOf<T>(s: seq<T>, f: T -> int): (r: int)
    ensures (forall x :: x in s ==> f(x) >= 0) ==> r >= 0
    decreases |s|
  {
    if s == [] then 0 else f(s[0]) + SumOf(s[1..], f)
  }

  /** Sums distribute over concatenation. */
  lemma {:induction false} SumOfConcat<T>(s: seq<T>, t: seq<T>, f: T -> int)
    ensures SumOf(s + t, f) == SumOf(s, f) + SumOf(t, f)
    decreases |s|
  {
    if s == [] {
      assert s + t == t;
    } else {
      assert (s + t)[1..] == s[1..] + t;
      SumOfConcat(s[1..], t, f);
    }
  }

  /** When every term equals `c`, the sum is |s| * c. */
  lemma {:induction false} SumOfConstant<T>(s: seq<T>, f: T -> int, c: int)
    requires forall x :: x in s ==> f(x) == c
    ensures SumOf(s, f) == |s| * c
    decreases |s|
  {
    if s != [] {
      assert f(s[0]) == c by { assert s[0] in s; }
      assert forall x :: x in s[1..] ==> x in s;
      SumOfConstant(s[1..], f, c);
      ConstantStep(|s| - 1, c);
    }
  }

  lemma ConstantStep(n: int, c: int)
    ensures (n + 1) * c == c + n * c
  {
  }

  /**
   * Summing over the elements accepted by `pq`, where `pq` accepts exactly what one of two
   * disjoint filters accepts, is summing over each filter separately.
   */
  lemma {:induction false} SumOfFilterUnion<T(!new)>(s: seq<T>, f: T -> int, p: T -> bool, q: T -> bool, pq: T -> bool)
    requires forall x :: pq(x) == (p(x) || q(x))
    requires forall x :: !(p(x) && q(x))
    ensures SumOf(Filter(s, pq), f) == SumOf(Filter(s, p), f) + SumOf(Filter(s, q), f)
    decreases |s|
  {
    if s != [] {
      SumOfFilterUnion(s[1..], f, p, q, pq);
      var h := [s[0]];
      var rpq, rp, rq := Filter(s[1..], pq), Filter(s[1..], p), Filter(s[1..], q);
      assert Filter(s, pq) == (if pq(s[0]) then h else []) + rpq;
      assert Filter(s, p) == (if p(s[0]) then h else []) + rp;
      assert Filter(s, q) == (if q(s[0]) then h else []) + rq;
      SumOfConcat(h, rpq, f);
      SumOfConcat(h, rp, f);
      SumOfConcat(h, rq, f);
      assert SumOf(h, f) == f(s[0]) by { assert h[1..] == []; }
      if p(s[0]) {
        assert SumOf(Filter(s, pq), f) == f(s[0]) + SumOf(rpq, f);
        assert SumOf(Filter(s, p), f) == f(s[0]) + SumOf(rp, f);
        assert Filter(s, q) == rq;
      } else if q(s[0]) {
        assert SumOf(Filter(s, pq), f) == f(s[0]) + SumOf(rpq, f);
        assert SumOf(Filter(s, q), f) == f(s[0]) + SumOf(rq, f);
        assert Filter(s, p) == rp;
      } else {
        assert Filter(s, pq) == rpq && Filter(s, p) == rp && Filter(s, q) == rq;
      }
    }
  }

  /**
   * The sum of `f` splits by a predicate: `f` summed over the elements with `g(x) == d(x) + k`
   * for those accepted by `late` and `g(x) == d(x)` for the others.
   */
  lemma {:induction false} SumOfSurcharge<T(!new)>(s: seq<T>, g: T -> int, base: int, late: T -> bool, k: int)
    requires forall x :: x in s ==> g(x) == base + (if late(x) then k else 0)
    ensures SumOf(s, g) == |s| * base + |Filter(s, late)| * k
    decreases |s|
  {
    if s != [] {
      var rest := s[1..];
      assert forall x :: x in rest ==> x in s;
      SumOfSurcharge(rest, g, base, late, k);
      assert s[0] in s;
      assert |Filter(s, late)| == (if late(s[0]) then 1 else 0) + |Filter(rest, late)|;
      SurchargeStep(|rest|, |Filter(rest, late)|, late(s[0]), base, k);
    }
  }

  /** The arithmetic of one step of SumOfSurcharge. */
  lemma SurchargeStep(n: int, m: int, isLate: bool, base: int, k: int)
    ensures (n + 1) * base + (m + (if isLate then 1 else 0)) * k == (base + (if isLate then k else 0)) + (n * base + m * k)
  {
  }

  /** `s.map(x => p(x) ? f(x) : x)`: apply `f` to the matching elements and keep the others. */
  function MapWhere<T>(s: seq<T>, p: T -> bool, f: T -> T): (r: seq<T>)
    ensures |r| == |s|
    ensures forall i :: 0 <= i < |s| ==> r[i] == if p(s[i]) then f(s[i]) else s[i]
    ensures (forall i :: 0 <= i < |s| ==> !p(s[i])) ==> r == s
    decreases |s|
  {
    if s == [] then [] else [if p(s[0]) then f(s[0]) else s[0]] + MapWhere(s[1..], p, f)
  }

  /**
   * A second update `g` of the same elements erases a first update `f` when `f` keeps an
   * element matching and `g` ignores what `f` did.
   */
  lemma {:induction false} MapWhereAbsorb<T>(s: seq<T>, p: T -> bool, f: T -> T, g: T -> T)
    requires forall x :: p(x) ==> p(f(x)) && g(f(x)) == g(x)
    ensures MapWhere(MapWhere(s, p, f), p, g) == MapWhere(s, p, g)
  {
    var a, b := MapWhere(MapWhere(s, p, f), p, g), MapWhere(s, p, g);
    forall i | 0 <= i < |s|
      ensures a[i] == b[i]
    {
      if p(s[i]) {
        assert p(f(s[i]));
      }
    }
  }

  /** The indices below `n` that satisfy `p`, in increasing order. */
  function IndicesBelow(n: nat, p: nat -> bool): (ds: seq<nat>)
    ensures |ds| <= n
    ensures forall k :: 0 <= k < |ds| ==> ds[k] < n && p(ds[k])
  {
    if n == 0 then [] else IndicesBelow(n - 1, p) + (if p(n - 1) then [n - 1] else [])
  }

  /** The indices listed are exactly those that satisfy `p`, and they strictly increase. */
  lemma {:induction false} IndicesBelowFacts(n: nat, p: nat -> bool)
    ensures forall i: nat :: i < n ==> (i in IndicesBelow(n, p) <==> p(i))
    ensures forall j, k :: 0 <= j < k < |IndicesBelow(n, p)| ==> IndicesBelow(n, p)[j] < IndicesBelow(n, p)[k]
  {
    if n > 0 {
      IndicesBelowFacts(n - 1, p);
      var before := IndicesBelow(n - 1, p);
      if p(n - 1) {
        assert IndicesBelow(n, p) == before + [n - 1];
      } else {
        assert IndicesBelow(n, p) == before;
      }
    }
  }

  /** Every index below `n` is listed exactly when every one satisfies `p`; then the list is `0, 1, ..., n - 1`. */
  lemma {:induction false} IndicesBelowAll(n: nat, p: nat -> bool)
    ensures |IndicesBelow(n, p)| == n <==> forall i: nat :: i < n ==> p(i)
    ensures (forall i: nat :: i < n ==> p(i)) ==> forall k :: 0 <= k < n ==> IndicesBelow(n, p)[k] == k
  {
    if n > 0 {
      IndicesBelowAll(n - 1, p);
      var before := IndicesBelow(n - 1, p);
      if p(n - 1) {
        assert IndicesBelow(n, p) == before + [n - 1];
      } else {
        assert IndicesBelow(n, p) == before;
      }
    }
  }
}
