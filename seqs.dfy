/** Sequence operations the stores are built from: the first match of a
    query (findOne, findIndex), filtering (.eq selections, Array.filter,
    deleteMany), updating every match (.update().eq()), and the
    newest-first ordering of listings. */
module Seqs {

  /** Index of the first element satisfying p, or -1 when there is none. */
  function FirstIndex<T>(s: seq<T>, p: T -> bool): (i: int)
    ensures -1 <= i < |s|
    ensures i == -1 <==> forall k :: 0 <= k < |s| ==> !p(s[k])
    ensures 0 <= i ==> p(s[i]) && forall k :: 0 <= k < i ==> !p(s[k])
  {
    if |s| == 0 then -1
    else if p(s[0]) then 0
    else
      var j := FirstIndex(s[1..], p);
      if j == -1 then -1 else j + 1
  }

  /** The elements satisfying p, in their original order. */
  function Filter<T>(s: seq<T>, p: T -> bool): (r: seq<T>)
    ensures |r| <= |s|
  {
    if |s| == 0 then []
    else (if p(s[0]) then [s[0]] else []) + Filter(s[1..], p)
  }

  /** Filter keeps exactly the elements satisfying p: every survivor
      satisfies p and comes from s, and every element of s satisfying p
      survives. */
  lemma {:induction false} FilterMembers<T>(s: seq<T>, p: T -> bool)
    ensures forall k :: 0 <= k < |Filter(s, p)| ==> p(Filter(s, p)[k]) && Filter(s, p)[k] in s
    ensures forall k :: 0 <= k < |s| && p(s[k]) ==> s[k] in Filter(s, p)
  {
    if |s| > 0 {
      FilterMembers(s[1..], p);
      var r := Filter(s, p);
      var head := if p(s[0]) then [s[0]] else [];
      assert r == head + Filter(s[1..], p);
      forall k | 0 <= k < |r| ensures p(r[k]) && r[k] in s {
        if k >= |head| {
          assert r[k] == Filter(s[1..], p)[k - |head|];
          assert r[k] in s[1..];
        }
      }
      forall k | 0 <= k < |s| && p(s[k]) ensures s[k] in r {
        if k > 0 {
          assert s[k] == s[1..][k - 1];
        }
      }
    }
  }

  /** Filtering distributes over concatenation: the survivors keep their order. */
  lemma {:induction false} FilterAppend<T>(a: seq<T>, b: seq<T>, p: T -> bool)
    ensures Filter(a + b, p) == Filter(a, p) + Filter(b, p)
  {
    if |a| == 0 {
      assert a + b == b;
    } else {
      var head := if p(a[0]) then [a[0]] else [];
      assert (a + b)[0] == a[0] && (a + b)[1..] == a[1..] + b;
      assert Filter(a + b, p) == head + Filter(a[1..] + b, p);
      FilterAppend(a[1..], b, p);
      assert Filter(a, p) == head + Filter(a[1..], p);
    }
  }

  /** Nothing is dropped when every element passes. */
  lemma {:induction false} FilterAll<T>(s: seq<T>, p: T -> bool)
    requires forall k :: 0 <= k < |s| ==> p(s[k])
    ensures Filter(s, p) == s
  {
    if |s| > 0 {
      FilterAll(s[1..], p);
    }
  }

  /** Everything is dropped when no element passes. */
  lemma {:induction false} FilterNone<T>(s: seq<T>, p: T -> bool)
    requires forall k :: 0 <= k < |s| ==> !p(s[k])
    ensures Filter(s, p) == []
  {
    if |s| > 0 {
      FilterNone(s[1..], p);
    }
  }

  /** Filtering with the same predicate twice is filtering once. */
  lemma FilterIdempotent<T>(s: seq<T>, p: T -> bool)
    ensures Filter(Filter(s, p), p) == Filter(s, p)
  {
    FilterMembers(s, p);
    FilterAll(Filter(s, p), p);
  }

  /** Replacing an element that fails p by another that fails p does not
      change what the filter keeps. */
  lemma FilterUpdateDropped<T>(s: seq<T>, i: nat, x: T, p: T -> bool)
    requires i < |s| && !p(s[i]) && !p(x)
    ensures Filter(s[i := x], p) == Filter(s, p)
  {
    assert s == s[..i] + ([s[i]] + s[i + 1..]);
    assert s[i := x] == s[..i] + ([x] + s[i + 1..]);
    FilterAppend(s[..i], [s[i]] + s[i + 1..], p);
    FilterAppend([s[i]], s[i + 1..], p);
    FilterAppend(s[..i], [x] + s[i + 1..], p);
    FilterAppend([x], s[i + 1..], p);
  }

  /** When exactly the element at i fails p, filtering removes just that element. */
  lemma {:induction false} FilterAllBut<T>(s: seq<T>, i: nat, p: T -> bool)
    requires i < |s| && !p(s[i])
    requires forall k :: 0 <= k < |s| && k != i ==> p(s[k])
    ensures Filter(s, p) == s[..i] + s[i + 1..]
  {
    assert s == s[..i] + ([s[i]] + s[i + 1..]);
    FilterAppend(s[..i], [s[i]] + s[i + 1..], p);
    FilterAppend([s[i]], s[i + 1..], p);
    FilterAll(s[..i], p);
    FilterAll(s[i + 1..], p);
  }

  /** When exactly the element at i satisfies p, filtering keeps just that element. */
  lemma {:induction false} FilterSingle<T>(s: seq<T>, i: nat, p: T -> bool)
    requires i < |s| && p(s[i])
    requires forall k :: 0 <= k < |s| && k != i ==> !p(s[k])
    ensures Filter(s, p) == [s[i]]
  {
    assert s == s[..i] + ([s[i]] + s[i + 1..]);
    FilterAppend(s[..i], [s[i]] + s[i + 1..], p);
    FilterAppend([s[i]], s[i + 1..], p);
    FilterNone(s[..i], p);
    FilterNone(s[i + 1..], p);
  }

  /** A filter that keeps exactly one element has found the only index that
      satisfies p. */
  lemma {:induction false} FilterOne<T>(s: seq<T>, p: T -> bool) returns (i: nat)
    requires |Filter(s, p)| == 1
    ensures i < |s| && p(s[i]) && Filter(s, p) == [s[i]]
    ensures forall k :: 0 <= k < |s| && k != i ==> !p(s[k])
    ensures FirstIndex(s, p) == i
  {
    var rest := Filter(s[1..], p);
    if p(s[0]) {
      assert |rest| == 0;
      FilterMembers(s[1..], p);
      forall k | 1 <= k < |s| ensures !p(s[k]) {
        assert s[1..][k - 1] == s[k];
      }
      i := 0;
    } else {
      var j := FilterOne(s[1..], p);
      i := j + 1;
      forall k | 0 <= k < |s| && k != i ensures !p(s[k]) {
        if k > 0 {
          assert s[1..][k - 1] == s[k];
        }
      }
    }
  }

  /** Every element satisfying p replaced by f of it; the others untouched. */
  function UpdateWhere<T>(s: seq<T>, p: T -> bool, f: T -> T): (r: seq<T>)
    ensures |r| == |s|
    ensures forall k :: 0 <= k < |s| ==> r[k] == if p(s[k]) then f(s[k]) else s[k]
  {
    if |s| == 0 then []
    else [if p(s[0]) then f(s[0]) else s[0]] + UpdateWhere(s[1..], p, f)
  }

  /** Ordered by a non-increasing key (newest first when the key is a creation time). */
  ghost predicate SortedDesc<T>(s: seq<T>, key: T -> int) {
    forall i, j :: 0 <= i < j < |s| ==> key(s[i]) >= key(s[j])
  }

  /** A prefix of an ordered sequence is ordered. */
  lemma SortedPrefix<T>(s: seq<T>, n: nat, key: T -> int)
    requires SortedDesc(s, key) && n <= |s|
    ensures SortedDesc(s[..n], key)
  {
    assert forall k :: 0 <= k < n ==> s[..n][k] == s[k];
  }

  /** Putting the head of an ordered sequence in front of an ordered
      sequence made of its tail and an element with a smaller key keeps the
      order. */
  lemma ConsDesc<T>(x: T, s: seq<T>, t: seq<T>, key: T -> int)
    requires SortedDesc(s, key) && |s| > 0 && key(x) < key(s[0])
    requires SortedDesc(t, key) && multiset(t) == multiset(s[1..]) + multiset{x}
    ensures SortedDesc([s[0]] + t, key)
  {
    forall k | 0 <= k < |t| ensures key(s[0]) >= key(t[k]) {
      assert t[k] in multiset(t);
      if t[k] != x {
        assert t[k] in multiset(s[1..]);
        var j :| 0 <= j < |s| - 1 && s[1..][j] == t[k];
        assert s[j + 1] == t[k];
      }
    }
    var r := [s[0]] + t;
    forall i, j | 0 <= i < j < |r| ensures key(r[i]) >= key(r[j]) {
      if i > 0 {
        assert r[i] == t[i - 1] && r[j] == t[j - 1];
      } else {
        assert r[j] == t[j - 1];
      }
    }
  }

  function InsertDesc<T>(x: T, s: seq<T>, key: T -> int): (r: seq<T>)
    requires SortedDesc(s, key)
    ensures SortedDesc(r, key)
    ensures multiset(r) == multiset(s) + multiset{x}
    ensures |r| == |s| + 1
  {
    if |s| == 0 then [x]
    else if key(x) >= key(s[0]) then [x] + s
    else
      var t := InsertDesc(x, s[1..], key);
      assert s == [s[0]] + s[1..];
      ConsDesc(x, s, t, key);
      [s[0]] + t
  }

  /** An ordering of s by non-increasing key: the newest-first listing of the stores. */
  function SortDesc<T>(s: seq<T>, key: T -> int): (r: seq<T>)
    ensures SortedDesc(r, key)
    ensures multiset(r) == multiset(s)
    ensures |r| == |s|
  {
    if |s| == 0 then []
    else
      assert s == [s[0]] + s[1..];
      InsertDesc(s[0], SortDesc(s[1..], key), key)
  }

  /** The first n elements, or all of them when there are fewer (a query's .limit(n)). */
  function Take<T>(s: seq<T>, n: nat): (r: seq<T>)
    ensures |r| == if |s| <= n then |s| else n
    ensures r == s[..|r|]
    ensures forall k :: 0 <= k < |r| ==> r[k] == s[k]
  {
    if |s| <= n then s else s[..n]
  }

  /** In an ordered sequence, nothing after position n has a greater key
      than anything before it. */
  lemma SortedRest<T>(s: seq<T>, n: nat, key: T -> int)
    requires SortedDesc(s, key) && n <= |s|
    ensures forall x :: x in multiset(s[n..]) ==> forall j :: 0 <= j < n ==> key(x) <= key(s[j])
  {
    forall x | x in multiset(s[n..])
      ensures forall j :: 0 <= j < n ==> key(x) <= key(s[j])
    {
      assert x in s[n..];
      var i :| n <= i < |s| && s[i] == x;
    }
  }

  /** The first n of an ordering by non-increasing key are ordered, come
      from s, and nothing of s left out has a greater key than any of them. */
  lemma TakeSorted<T>(s: seq<T>, n: nat, key: T -> int)
    ensures var r := Take(SortDesc(s, key), n);
      && SortedDesc(r, key)
      && multiset(r) <= multiset(s)
      && forall x :: x in multiset(s) - multiset(r) ==> forall j :: 0 <= j < |r| ==> key(x) <= key(r[j])
  {
    var sorted := SortDesc(s, key);
    var r := Take(sorted, n);
    SortedPrefix(sorted, |r|, key);
    SortedRest(sorted, |r|, key);
    assert sorted == r + sorted[|r|..];
    assert multiset(s) - multiset(r) == multiset(sorted[|r|..]);
  }
}
