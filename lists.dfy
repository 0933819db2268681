/** Sequence operations the portal builds its lists from: the `filter`, `slice(0, n)`
    and comparator `sort` of JavaScript arrays, stated over Dafny sequences. */
module Lists {

  /** `s` keeps some of the elements of `t`, in the order they have in `t`. */
  ghost predicate Subseq<T>(s: seq<T>, t: seq<T>)
    decreases |t|
  {
    if s == [] then true
    else if t == [] then false
    else if s[0] == t[0] then Subseq(s[1..], t[1..])
    else Subseq(s, t[1..])
  }

  lemma {:induction false} SubseqRefl<T>(s: seq<T>)
    ensures Subseq(s, s)
    decreases |s|
  {
    if s != [] { SubseqRefl(s[1..]); }
  }

  lemma {:induction false} SubseqPrefix<T>(s: seq<T>, t: seq<T>, k: nat)
    requires Subseq(s, t) && k <= |s|
    ensures Subseq(s[..k], t)
    decreases |t|
  {
    if k == 0 || s == [] {
    } else if s[0] == t[0] {
      SubseqPrefix(s[1..], t[1..], k - 1);
      assert s[..k][1..] == s[1..][..k - 1];
    } else {
      SubseqPrefix(s, t[1..], k);
    }
  }

  /** `Array.prototype.filter`: the elements satisfying `p`, in order, each as often as in `s`. */
  function Filter<T(!new)>(s: seq<T>, p: T -> bool): (r: seq<T>)
    ensures |r| <= |s|
    ensures forall x {:trigger x in r} :: x in r <==> x in s && p(x)
    ensures forall x {:trigger multiset(r)[x]} :: multiset(r)[x] == if p(x) then multiset(s)[x] else 0
    ensures Subseq(r, s)
  {
    if s == [] then []
    else
      var rest := Filter(s[1..], p);
      assert s == [s[0]] + s[1..];
      if p(s[0]) then [s[0]] + rest else rest
  }

  /** Filtering a sequence that starts with `x`. */
  lemma FilterCons<T(!new)>(x: T, s: seq<T>, p: T -> bool)
    ensures Filter([x] + s, p) == (if p(x) then [x] else []) + Filter(s, p)
  {
    assert ([x] + s)[1..] == s;
  }

  /** Filtering distributes over concatenation. */
  lemma {:induction false} FilterConcat<T(!new)>(a: seq<T>, b: seq<T>, p: T -> bool)
    ensures Filter(a + b, p) == Filter(a, p) + Filter(b, p)
    decreases |a|
  {
    if a == [] {
      assert a + b == b;
    } else {
      assert (a + b)[0] == a[0] && (a + b)[1..] == a[1..] + b;
      FilterConcat(a[1..], b, p);
      if p(a[0]) {
        assert [a[0]] + (Filter(a[1..], p) + Filter(b, p)) == ([a[0]] + Filter(a[1..], p)) + Filter(b, p);
      }
    }
  }

  /** A filter every element passes changes nothing. */
  lemma {:induction false} FilterKeepsAll<T(!new)>(s: seq<T>, p: T -> bool)
    requires forall k :: 0 <= k < |s| ==> p(s[k])
    ensures Filter(s, p) == s
    decreases |s|
  {
    if s != [] {
      FilterKeepsAll(s[1..], p);
    }
  }

  /** `Array.prototype.slice(0, n)`. */
  function Take<T>(s: seq<T>, n: nat): (r: seq<T>)
    ensures |r| == if |s| < n then |s| else n
    ensures r == s[..|r|]
  {
    if |s| <= n then s else s[..n]
  }

  /** `s.filter(p).slice(0, n)`: the first `n` elements satisfying `p`, in order. An element
      satisfying `p` is left out only when the result is already full. */
  function FirstMatching<T(!new)>(s: seq<T>, p: T -> bool, n: nat): (r: seq<T>)
    ensures |r| == if |Filter(s, p)| < n then |Filter(s, p)| else n
    ensures r == Filter(s, p)[..|r|]
    ensures Subseq(r, s)
    ensures forall x :: x in r ==> x in s && p(x)
    ensures forall x :: x in s && p(x) && x !in r ==> |r| == n
  {
    var hits := Filter(s, p);
    var r := Take(hits, n);
    SubseqPrefix(hits, s, |r|);
    assert forall x :: x in r ==> x in hits;
    r
  }

  /** The selection takes the earliest matches: the matches of any prefix of `s` that has at
      most `n` of them open the selection, in the same order. */
  lemma FirstMatchingTakesEarliest<T(!new)>(s: seq<T>, p: T -> bool, n: nat, m: nat)
    requires m <= |s| && |Filter(s[..m], p)| <= n
    ensures |Filter(s[..m], p)| <= |FirstMatching(s, p, n)|
    ensures FirstMatching(s, p, n)[..|Filter(s[..m], p)|] == Filter(s[..m], p)
  {
    assert s == s[..m] + s[m..];
    FilterConcat(s[..m], s[m..], p);
  }

  /** When the first element satisfies `p`, it heads the selection. */
  lemma FirstMatchingHead<T(!new)>(s: seq<T>, p: T -> bool, n: nat)
    requires s != [] && p(s[0]) && n > 0
    ensures FirstMatching(s, p, n) != [] && FirstMatching(s, p, n)[0] == s[0]
  {
    assert s == [s[0]] + s[1..];
  }

  /** Keys never increase from left to right. */
  ghost predicate SortedDesc<T>(s: seq<T>, key: T -> int)
  {
    forall i, j :: 0 <= i < j < |s| ==> key(s[i]) >= key(s[j])
  }

  /** Places `x` before the first element whose key is at most its own. */
  function InsertDesc<T>(x: T, s: seq<T>, key: T -> int): (r: seq<T>)
    ensures multiset(r) == multiset(s) + multiset{x}
  {
    if s == [] || key(s[0]) <= key(x) then [x] + s
    else
      assert s == [s[0]] + s[1..];
      [s[0]] + InsertDesc(x, s[1..], key)
  }

  lemma {:induction false} InsertDescSorted<T>(x: T, s: seq<T>, key: T -> int)
    requires SortedDesc(s, key)
    ensures SortedDesc(InsertDesc(x, s, key), key)
  {
    if s == [] || key(s[0]) <= key(x) {
      SortedCons(x, s, key);
    } else {
      var rest := InsertDesc(x, s[1..], key);
      InsertDescSorted(x, s[1..], key);
      BoundedByHead(s, key);
      Bounded(rest, s[1..], x, key, key(s[0]));
      SortedCons(s[0], rest, key);
    }
  }

  /** Putting an element with the greatest key in front keeps a sequence sorted. */
  lemma SortedCons<T>(h: T, s: seq<T>, key: T -> int)
    requires SortedDesc(s, key)
    requires forall i :: 0 <= i < |s| ==> key(s[i]) <= key(h)
    ensures SortedDesc([h] + s, key)
  {
    var r := [h] + s;
    forall i, j | 0 <= i < j < |r| ensures key(r[i]) >= key(r[j]) {
      assert r[j] == s[j - 1];
      if i > 0 { assert r[i] == s[i - 1]; }
    }
  }

  /** In a sorted sequence nothing after the head has a greater key. */
  lemma BoundedByHead<T>(s: seq<T>, key: T -> int)
    requires SortedDesc(s, key) && s != []
    ensures forall y :: y in s[1..] ==> key(y) <= key(s[0])
  {
    forall y | y in s[1..] ensures key(y) <= key(s[0]) {
      var k :| 0 <= k < |s[1..]| && s[1..][k] == y;
      assert s[k + 1] == y;
    }
  }

  /** A bound on the keys of `s` and of `x` bounds the keys of any arrangement of them. */
  lemma Bounded<T>(r: seq<T>, s: seq<T>, x: T, key: T -> int, b: int)
    requires multiset(r) == multiset(s) + multiset{x}
    requires forall y :: y in s ==> key(y) <= b
    requires key(x) <= b
    ensures forall i :: 0 <= i < |r| ==> key(r[i]) <= b
  {
    forall i | 0 <= i < |r| ensures key(r[i]) <= b {
      assert r[i] in multiset(r);
      assert r[i] == x || r[i] in multiset(s);
    }
  }

  /** `arr.sort((a, b) => key(b) - key(a))`: a permutation of `s` ordered by
      decreasing key (insertion sort; among equal keys the earlier element stays first). */
  function SortDescBy<T>(s: seq<T>, key: T -> int): (r: seq<T>)
    ensures multiset(r) == multiset(s)
    ensures SortedDesc(r, key)
  {
    if s == [] then []
    else
      assert s == [s[0]] + s[1..];
      var rest := SortDescBy(s[1..], key);
      InsertDescSorted(s[0], rest, key);
      InsertDesc(s[0], rest, key)
  }

  /** Sorting what a filter keeps leaves the same elements, each as often as in `s`. */
  lemma FilterThenSort<T(!new)>(s: seq<T>, p: T -> bool, key: T -> int)
    ensures forall x :: x in SortDescBy(Filter(s, p), key) <==> x in s && p(x)
    ensures forall x :: p(x) ==> multiset(SortDescBy(Filter(s, p), key))[x] == multiset(s)[x]
  {
    var r := SortDescBy(Filter(s, p), key);
    assert forall x :: x in r <==> x in multiset(Filter(s, p));
  }

  /** The first `n` elements of a sorted sequence: a sorted sub-multiset whose every key is at
      least that of anything left out. */
  lemma SortedTake<T>(s: seq<T>, key: T -> int, n: nat)
    requires SortedDesc(s, key)
    ensures multiset(Take(s, n)) <= multiset(s)
    ensures SortedDesc(Take(s, n), key)
    ensures forall x, i :: 0 <= i < |Take(s, n)| && x in multiset(s) - multiset(Take(s, n))
                           ==> key(x) <= key(Take(s, n)[i])
  {
    var r := Take(s, n);
    var k := |r|;
    assert s == r + s[k..];
    forall x, i | 0 <= i < k && x in multiset(s) - multiset(r)
      ensures key(x) <= key(r[i])
    {
      assert x in multiset(s[k..]);
      var j :| 0 <= j < |s[k..]| && s[k..][j] == x;
      assert s[k + j] == x && r[i] == s[i];
    }
  }
}
