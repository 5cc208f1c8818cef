/** Collection helpers shared by the models of the monitoring engine and the
    log buffer: an Option type, an order-preserving filter, a stable sort by
    descending integer key (the `orderBy: desc` of the store queries and the
    `sort((a, b) => b.t - a.t)` of the log queries), prefix and slice
    operations with the clamping of JavaScript's `slice`, and the sum of the
    values of a finite map. */
module Common {

  datatype Option<T> = None | Some(value: T)

  /** The elements of `s` that satisfy `p`, in their original order
      (JavaScript's `Array.prototype.filter`). */
  function Filter<T(!new)>(s: seq<T>, p: T -> bool): (r: seq<T>)
    ensures |r| <= |s|
    ensures forall i | 0 <= i < |r| :: p(r[i])
    ensures forall x :: x in r <==> x in s && p(x)
  {
    if s == [] then []
    else
      assert s == [s[0]] + s[1..];
      var rest := Filter(s[1..], p);
      if p(s[0]) then [s[0]] + rest else rest
  }

  /** Filtering keeps every occurrence of a selected element and no other. */
  lemma {:induction false} FilterCounts<T(!new)>(s: seq<T>, p: T -> bool)
    ensures forall x :: multiset(Filter(s, p))[x] == if p(x) then multiset(s)[x] else 0
  {
    if s != [] {
      assert s == [s[0]] + s[1..];
      FilterCounts(s[1..], p);
    }
  }

  /** The index of the first element of `s` that satisfies `p`, if any
      (JavaScript's `find`, and `Map.get` on an insertion-ordered map). */
  function FirstIndex<T>(s: seq<T>, p: T -> bool): (r: Option<nat>)
    ensures r.Some? ==> r.value < |s| && p(s[r.value])
    ensures r.Some? ==> forall j | 0 <= j < r.value :: !p(s[j])
    ensures r.None? <==> forall j | 0 <= j < |s| :: !p(s[j])
  {
    if s == [] then None
    else if p(s[0]) then Some(0)
    else
      match FirstIndex(s[1..], p)
      case None => assert forall j | 1 <= j < |s| :: s[j] == s[1..][j - 1]; None
      case Some(k) => Some(k + 1)
  }

  /** `s` is ordered by non-increasing `key`. */
  predicate SortedDesc<T>(s: seq<T>, key: T -> int) {
    forall i, j | 0 <= i < j < |s| :: key(s[i]) >= key(s[j])
  }

  /** Inserts `x` into the ordered `s` in front of every element whose key is
      not greater than its own, so that among equal keys the element inserted
      last comes first. */
  function InsertDesc<T>(x: T, s: seq<T>, key: T -> int): (r: seq<T>)
    requires SortedDesc(s, key)
    ensures |r| == |s| + 1
    ensures multiset(r) == multiset(s) + multiset{x}
    ensures SortedDesc(r, key)
  {
    if s == [] || key(s[0]) <= key(x) then
      ConsSorted(x, s, key);
      [x] + s
    else
      var tail := InsertDesc(x, s[1..], key);
      assert s == [s[0]] + s[1..];
      assert forall j | 0 <= j < |tail| :: key(s[0]) >= key(tail[j]) by {
        forall j | 0 <= j < |tail| ensures key(s[0]) >= key(tail[j]) {
          assert tail[j] in multiset(tail);
          assert tail[j] in multiset(s[1..]) + multiset{x};
        }
      }
      ConsSorted(s[0], tail, key);
      [s[0]] + tail
  }

  /** An element no smaller than every element of an ordered sequence may be
      put in front of it. */
  lemma ConsSorted<T>(h: T, t: seq<T>, key: T -> int)
    requires SortedDesc(t, key)
    requires t == [] || key(t[0]) <= key(h) || forall j | 0 <= j < |t| :: key(h) >= key(t[j])
    ensures SortedDesc([h] + t, key)
  {
    var r := [h] + t;
    forall i, j | 0 <= i < j < |r| ensures key(r[i]) >= key(r[j]) {
      if i > 0 {
        assert r[i] == t[i - 1] && r[j] == t[j - 1];
      } else {
        assert r[j] == t[j - 1];
        if t != [] && key(t[0]) <= key(h) {
          assert key(t[0]) >= key(t[j - 1]) || j - 1 == 0;
        }
      }
    }
  }

  /** Stable sort by descending key: the result is ordered newest first and is
      a permutation of the input; elements with equal keys keep their input
      order (as JavaScript's stable `Array.prototype.sort` does). */
  function SortDesc<T>(s: seq<T>, key: T -> int): (r: seq<T>)
    ensures |r| == |s|
    ensures multiset(r) == multiset(s)
    ensures SortedDesc(r, key)
  {
    if s == [] then []
    else
      assert s == [s[0]] + s[1..];
      InsertDesc(s[0], SortDesc(s[1..], key), key)
  }

  /** The first `n` elements of `s`, or all of `s` when it is shorter (the
      `take` of a store query). */
  function Take<T>(s: seq<T>, n: nat): (r: seq<T>)
    ensures |r| == if |s| <= n then |s| else n
    ensures r == s[..|r|]
  {
    if |s| <= n then s else s[..n]
  }

  /** JavaScript's `s.slice(from, from + count)` for non-negative arguments:
      both ends are clamped to the length of `s`. */
  function Slice<T>(s: seq<T>, from: nat, count: nat): (r: seq<T>)
    ensures from <= |s| ==> r == s[from..if from + count <= |s| then from + count else |s|]
    ensures from >= |s| ==> r == []
    ensures |r| <= count
  {
    var lo := if from <= |s| then from else |s|;
    var hi := if from + count <= |s| then from + count else |s|;
    s[lo..hi]
  }

  /** A non-empty sequence is its prefix followed by its last element. */
  lemma PrefixSnoc<T>(s: seq<T>)
    requires s != []
    ensures s[..|s| - 1] + [s[|s| - 1]] == s
  {
  }

  /** Writing back the element already at position `i` changes nothing. */
  lemma UpdateSame<T>(s: seq<T>, i: nat)
    requires i < |s|
    ensures s[i := s[i]] == s
  {
  }

  /** Replacing the first element of a suffix that follows a prefix of
      length `i` extends the prefix by the new element. */
  lemma UpdateAfterPrefix<T>(p: seq<T>, s: seq<T>, i: nat, x: T)
    requires |p| == i < |s|
    ensures (p + s[i..])[i := x] == (p + [x]) + s[i + 1..]
  {
  }

  /** A slice of an ordered sequence whose elements all satisfy `p` is
      ordered, its elements satisfy `p`, and it holds no element more often
      than the sequence does. */
  lemma SliceOfSorted<T>(s: seq<T>, from: nat, count: nat, p: T -> bool, key: T -> int)
    requires SortedDesc(s, key)
    requires forall i | 0 <= i < |s| :: p(s[i])
    ensures var r := Slice(s, from, count);
      && (forall i | 0 <= i < |r| :: p(r[i]))
      && SortedDesc(r, key)
      && multiset(r) <= multiset(s)
  {
    if from <= |s| {
      var hi := if from + count <= |s| then from + count else |s|;
      SubrangeFacts(s, from, hi, p, key);
    }
  }

  lemma SubrangeFacts<T>(s: seq<T>, lo: nat, hi: nat, p: T -> bool, key: T -> int)
    requires lo <= hi <= |s|
    requires SortedDesc(s, key)
    requires forall i | 0 <= i < |s| :: p(s[i])
    ensures forall i | 0 <= i < hi - lo :: p(s[lo..hi][i])
    ensures SortedDesc(s[lo..hi], key)
    ensures multiset(s[lo..hi]) <= multiset(s)
  {
    assert s == s[..lo] + s[lo..hi] + s[hi..];
  }

  /** Taking a prefix of an ordered sequence keeps it ordered, and something
      is left out only when the prefix is full, and then it has a key no
      greater than the last element kept. */
  lemma TakeOfSorted<T>(s: seq<T>, n: nat, key: T -> int)
    requires SortedDesc(s, key)
    ensures SortedDesc(Take(s, n), key)
    ensures var t := Take(s, n);
      forall x | x in multiset(s) - multiset(t) :: |t| == n && (0 < n ==> key(x) <= key(t[n - 1]))
  {
    var t := Take(s, n);
    if |s| > n {
      var rest := s[n..];
      assert s == t + rest;
      assert multiset(s) - multiset(t) == multiset(rest);
      forall x | x in multiset(rest) ensures |t| == n && (0 < n ==> key(x) <= key(t[n - 1])) {
        assert x in rest;
        var j :| 0 <= j < |rest| && rest[j] == x;
        assert s[n + j] == x;
        if 0 < n { assert t[n - 1] == s[n - 1]; }
      }
    } else {
      assert t == s;
      assert multiset(s) - multiset(t) == multiset{};
    }
  }

  /** The `n` elements of `s` satisfying `p` with the greatest keys, greatest
      first: a filter, a stable descending sort and a prefix, as a store query
      with `where`, `orderBy: desc` and `take` computes it. */
  function TopN<T(!new)>(s: seq<T>, p: T -> bool, key: T -> int, n: nat): (r: seq<T>)
    ensures |r| <= n
    ensures |r| == if |Filter(s, p)| <= n then |Filter(s, p)| else n
    ensures forall i | 0 <= i < |r| :: p(r[i])
    ensures SortedDesc(r, key)
    ensures multiset(r) <= multiset(s)
    ensures forall x | x in s && p(x) && multiset(r)[x] < multiset(s)[x] ::
      |r| == n && (0 < n ==> key(x) <= key(r[n - 1]))
  {
    var sorted := SortDesc(Filter(s, p), key);
    TakeOfSorted(sorted, n, key);
    TopNContents(s, p, key, n);
    TopNDropped(s, p, key, n);
    Take(sorted, n)
  }

  lemma TopNContents<T(!new)>(s: seq<T>, p: T -> bool, key: T -> int, n: nat)
    ensures var r := Take(SortDesc(Filter(s, p), key), n);
      (forall i | 0 <= i < |r| :: p(r[i])) && multiset(r) <= multiset(s)
  {
    var matching := Filter(s, p);
    var sorted := SortDesc(matching, key);
    var r := Take(sorted, n);
    assert multiset(r) <= multiset(matching) by {
      assert sorted == r + sorted[|r|..];
    }
    FilterCounts(s, p);
    forall i | 0 <= i < |r| ensures p(r[i]) {
      assert r[i] in multiset(matching);
    }
  }

  lemma TopNDropped<T(!new)>(s: seq<T>, p: T -> bool, key: T -> int, n: nat)
    ensures var r := Take(SortDesc(Filter(s, p), key), n);
      forall x | x in s && p(x) && multiset(r)[x] < multiset(s)[x] ::
        |r| == n && (0 < n ==> key(x) <= key(r[n - 1]))
  {
    var sorted := SortDesc(Filter(s, p), key);
    var r := Take(sorted, n);
    TakeOfSorted(sorted, n, key);
    FilterCounts(s, p);
    forall x | x in s && p(x) && multiset(r)[x] < multiset(s)[x]
      ensures |r| == n && (0 < n ==> key(x) <= key(r[n - 1]))
    {
      assert multiset(sorted)[x] == multiset(s)[x];
      assert x in multiset(sorted) - multiset(r);
    }
  }

  /** The sum of the values of a finite map. */
  ghost function SumValues<K>(m: map<K, nat>): nat
    decreases |m|
  {
    if |m| == 0 then 0
    else
      var k :| k in m;
      assert (m - {k}).Keys == m.Keys - {k};
      m[k] + SumValues(m - {k})
  }

  /** The key that the definition of SumValues takes out first. */
  lemma SumValuesFirstKey<K>(m: map<K, nat>) returns (j: K)
    requires |m| != 0
    ensures j in m && SumValues(m) == m[j] + SumValues(m - {j})
  {
    j :| j in m && SumValues(m) == m[j] + SumValues(m - {j});
  }

  /** Any key may be taken out first when summing a map. */
  lemma {:induction false} SumValuesRemove<K>(m: map<K, nat>, k: K)
    requires k in m
    ensures SumValues(m) == m[k] + SumValues(m - {k})
    decreases |m|
  {
    assert |m| != 0 by { assert k in m.Keys; }
    var j := SumValuesFirstKey(m);
    if j != k {
      var mj, mk := m - {j}, m - {k};
      assert |mj| < |m| && |mk| < |m| by {
        assert mj.Keys == m.Keys - {j} && mk.Keys == m.Keys - {k};
      }
      SumValuesRemove(mj, k);
      SumValuesRemove(mk, j);
      assert mj[k] == m[k] && mk[j] == m[j];
      assert mj - {k} == mk - {j};
    }
  }

  /** Adding one to the count of a key, whether it was present or not, adds
      one to the sum. */
  lemma SumValuesIncrement<K>(m: map<K, nat>, k: K)
    ensures SumValues(m[k := (if k in m then m[k] else 0) + 1]) == SumValues(m) + 1
  {
    var m' := m[k := (if k in m then m[k] else 0) + 1];
    SumValuesRemove(m', k);
    if k in m {
      SumValuesRemove(m, k);
      assert m' - {k} == m - {k};
    } else {
      assert m' - {k} == m;
    }
  }
}
