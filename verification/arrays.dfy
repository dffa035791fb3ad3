/**
 * The JavaScript array methods the dashboard composes, as functions on
 * sequences: `filter`, `filter(...).length`, `find`, and `sort` with a
 * comparator on string keys.
 */
module Arrays {
  import opened Wrappers
  import opened Strings

  function Min(a: int, b: int): int { if a <= b then a else b }

  /** `r` is `s` with some elements deleted and the rest kept in their order. */
  ghost predicate Subsequence<T>(r: seq<T>, s: seq<T>)
  {
    |r| == 0 || (|s| > 0 && ((r[0] == s[0] && Subsequence(r[1..], s[1..])) || Subsequence(r, s[1..])))
  }

  /** `s.filter(p)`: exactly the elements satisfying `p`, each as often as in `s`. */
  function Filter<T(!new)>(s: seq<T>, p: T -> bool): (r: seq<T>)
    ensures |r| <= |s|
    ensures forall x :: x in r ==> p(x)
    ensures forall x :: multiset(r)[x] == if p(x) then multiset(s)[x] else 0
  {
    if |s| == 0 then []
    else
      assert s == [s[0]] + s[1..];
      (if p(s[0]) then [s[0]] else []) + Filter(s[1..], p)
  }

  /** `filter` keeps the elements it retains in their order in `s`. */
  lemma {:induction false} FilterKeepsOrder<T(!new)>(s: seq<T>, p: T -> bool)
    ensures Subsequence(Filter(s, p), s)
  {
    if |s| > 0 {
      FilterKeepsOrder(s[1..], p);
      var rest := Filter(s[1..], p);
      if p(s[0]) {
        assert Filter(s, p) == [s[0]] + rest;
        assert ([s[0]] + rest)[1..] == rest;
      } else {
        assert Filter(s, p) == rest;
      }
    }
  }

  /** `s.filter(p).length`: never more than the length of `s`. */
  function Count<T(!new)>(s: seq<T>, p: T -> bool): (n: nat)
    ensures n <= |s|
  {
    |Filter(s, p)|
  }

  /** Elements satisfying `p` and elements satisfying its negation `q` together make up `s`. */
  lemma {:induction false} CountComplement<T(!new)>(s: seq<T>, p: T -> bool, q: T -> bool)
    requires forall i :: 0 <= i < |s| ==> q(s[i]) == !p(s[i])
    ensures Count(s, p) + Count(s, q) == |s|
  {
    if |s| > 0 {
      CountComplement(s[1..], p, q);
    }
  }

  /** Counting under two predicates that never both hold adds up to counting under their disjunction `pq`. */
  lemma {:induction false} CountDisjointUnion<T(!new)>(s: seq<T>, p: T -> bool, q: T -> bool, pq: T -> bool)
    requires forall i :: 0 <= i < |s| ==> !(p(s[i]) && q(s[i]))
    requires forall i :: 0 <= i < |s| ==> pq(s[i]) == (p(s[i]) || q(s[i]))
    ensures Count(s, pq) == Count(s, p) + Count(s, q)
  {
    if |s| > 0 {
      CountDisjointUnion(s[1..], p, q, pq);
    }
  }

  /** `s.find(p)`: the first element satisfying `p`, or None when there is none. */
  function Find<T>(s: seq<T>, p: T -> bool): (r: Option<T>)
    ensures r.None? <==> forall i :: 0 <= i < |s| ==> !p(s[i])
    ensures r.Some? ==> r.value in s && p(r.value)
    ensures forall i :: 0 <= i < |s| && p(s[i]) && (forall j :: 0 <= j < i ==> !p(s[j])) ==> r == Some(s[i])
  {
    if |s| == 0 then None
    else if p(s[0]) then Some(s[0])
    else
      var r := Find(s[1..], p);
      assert forall i :: 1 <= i < |s| ==> s[1..][i - 1] == s[i];
      r
  }

  /** Every element's key is at most every later element's key. */
  predicate SortedBy<T>(s: seq<T>, key: T -> string)
  {
    forall i, j :: 0 <= i < j < |s| ==> LexLe(key(s[i]), key(s[j]))
  }

  /** Inserts `x` after every element whose key is not greater than its own. */
  function Insert<T>(x: T, t: seq<T>, key: T -> string): (r: seq<T>)
    requires SortedBy(t, key)
    ensures SortedBy(r, key)
    ensures multiset(r) == multiset(t) + multiset{x}
  {
    if |t| == 0 then [x]
    else if !LexLe(key(t[0]), key(x)) then
      LexLeTotal(key(t[0]), key(x));
      forall j | 0 <= j < |t| ensures LexLe(key(x), key(t[j])) {
        if j > 0 { LexLeTransitive(key(x), key(t[0]), key(t[j])); }
      }
      assert t == [t[0]] + t[1..];
      [x] + t
    else
      var rest := Insert(x, t[1..], key);
      assert t == [t[0]] + t[1..];
      forall y | y in rest ensures LexLe(key(t[0]), key(y)) {
        assert y in multiset(rest);
        if y != x {
          assert y in t[1..];
        }
      }
      [t[0]] + rest
  }

  /**
   * `s.sort((a, b) => key(a).localeCompare(key(b)))` on a fresh array: the
   * same elements, in ascending order of their keys. Insertion keeps elements
   * with equal keys in their original order, as JavaScript's stable sort does.
   */
  function SortBy<T>(s: seq<T>, key: T -> string): (r: seq<T>)
    ensures SortedBy(r, key)
    ensures multiset(r) == multiset(s)
    ensures |r| == |s|
  {
    if |s| == 0 then []
    else
      var init, last := s[..|s| - 1], s[|s| - 1];
      var sorted := SortBy(init, key);
      assert s == init + [last];
      assert multiset(s) == multiset(sorted) + multiset{last};
      Insert(last, sorted, key)
  }

  /** `s.slice(0, n)`: the first `n` elements, or all of `s` when it is shorter. */
  function Take<T>(s: seq<T>, n: nat): (r: seq<T>)
    ensures |r| == Min(n, |s|)
    ensures r <= s
  {
    if |s| <= n then s else s[..n]
  }

  /**
   * A prefix of a sorted sequence is sorted, is drawn from it, and holds its
   * least elements: every element left out has a key no smaller than any kept one.
   */
  lemma SortedPrefix<T>(s: seq<T>, key: T -> string, r: seq<T>)
    requires SortedBy(s, key) && r <= s
    ensures SortedBy(r, key)
    ensures multiset(r) <= multiset(s)
    ensures forall y :: y in s && y !in r ==> forall x :: x in r ==> LexLe(key(x), key(y))
  {
    assert s == r + s[|r|..];
    forall y | y in s && y !in r ensures forall x :: x in r ==> LexLe(key(x), key(y)) {
      var j :| 0 <= j < |s| && s[j] == y;
      assert j >= |r|;
      forall x | x in r ensures LexLe(key(x), key(y)) {
        var i :| 0 <= i < |r| && r[i] == x;
        assert s[i] == x;
      }
    }
  }
}
