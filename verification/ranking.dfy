/** Ordering by a numeric key, largest first, and keeping the first N: the
    `sort.Slice(…, a[i].Gas > a[j].Gas)` followed by `a[:topN]` that
    topExpensiveOpcodes, GetTopExpensiveFunctions and printFunctionCosts
    share. `sort.Slice` is not stable, so the order among equal keys is
    unspecified; the model sorts by insertion (one admissible order) and
    `SortedKeysAgree` shows every admissible order has the same key column. */
module Ranking {

  /** Non-increasing in `key`. */
  ghost predicate SortedDesc<T>(s: seq<T>, key: T -> nat)
  {
    forall i, j :: 0 <= i < j < |s| ==> key(s[i]) >= key(s[j])
  }

  /** An element no smaller than everything after it extends a sorted
      sequence. */
  lemma ConsSorted<T>(y: T, t: seq<T>, key: T -> nat)
    requires SortedDesc(t, key)
    requires forall j :: 0 <= j < |t| ==> key(y) >= key(t[j])
    ensures SortedDesc([y] + t, key)
  {
    var r := [y] + t;
    forall i, j | 0 <= i < j < |r| ensures key(r[i]) >= key(r[j]) {
      assert r[j] == t[j - 1];
      if i > 0 {
        assert r[i] == t[i - 1];
      }
    }
  }

  /** `x` goes in front of the first element with a smaller key. */
  function Insert<T>(x: T, s: seq<T>, key: T -> nat): (r: seq<T>)
    ensures |r| == |s| + 1
    ensures multiset(r) == multiset(s) + multiset{x}
    decreases |s|
  {
    if s == [] || key(x) > key(s[0]) then [x] + s
    else
      assert s == [s[0]] + s[1..];
      [s[0]] + Insert(x, s[1..], key)
  }

  /** Inserting into a sorted sequence keeps it sorted. */
  lemma {:induction false} InsertSorted<T>(x: T, s: seq<T>, key: T -> nat)
    requires SortedDesc(s, key)
    ensures SortedDesc(Insert(x, s, key), key)
    decreases |s|
  {
    if s == [] || key(x) > key(s[0]) {
      ConsSorted(x, s, key);
    } else {
      var rest := Insert(x, s[1..], key);
      InsertSorted(x, s[1..], key);
      forall j | 0 <= j < |rest| ensures key(s[0]) >= key(rest[j]) {
        assert rest[j] in multiset(rest);
        if rest[j] != x {
          assert rest[j] in multiset(s[1..]);
          var k :| 0 <= k < |s[1..]| && s[1..][k] == rest[j];
          assert s[k + 1] == rest[j];
        }
      }
      ConsSorted(s[0], rest, key);
    }
  }

  /** The elements of `xs`, largest key first. */
  function SortDesc<T>(xs: seq<T>, key: T -> nat): (r: seq<T>)
    ensures |r| == |xs|
    ensures multiset(r) == multiset(xs)
    ensures SortedDesc(r, key)
    decreases |xs|
  {
    if xs == [] then []
    else
      var rest := SortDesc(xs[1..], key);
      assert xs == [xs[0]] + xs[1..];
      InsertSorted(xs[0], rest, key);
      Insert(xs[0], rest, key)
  }

  function Min(a: nat, b: nat): nat
  {
    if a <= b then a else b
  }

  /** The first `n` of the sorted elements, or all of them when there are
      fewer: `if len(s) > topN { return s[:topN] }; return s`. */
  function TopN<T>(xs: seq<T>, key: T -> nat, n: nat): (r: seq<T>)
    ensures |r| == Min(n, |xs|)
    ensures multiset(r) <= multiset(xs)
    ensures SortedDesc(r, key)
  {
    var s := SortDesc(xs, key);
    if |s| > n then
      assert s == s[..n] + s[n..];
      assert multiset(s) == multiset(s[..n]) + multiset(s[n..]);
      s[..n]
    else s
  }

  /** Nothing left out of the top `n` has a larger key than anything kept,
      and everything is kept when there are at most `n` elements. */
  lemma TopNKeepsLargest<T>(xs: seq<T>, key: T -> nat, n: nat)
    ensures |xs| <= n ==> multiset(TopN(xs, key, n)) == multiset(xs)
    ensures forall x, i | x in multiset(xs) - multiset(TopN(xs, key, n)) && 0 <= i < |TopN(xs, key, n)| ::
      key(x) <= key(TopN(xs, key, n)[i])
  {
    var s := SortDesc(xs, key);
    var r := TopN(xs, key, n);
    if |s| > n {
      assert s == r + s[n..];
      assert multiset(xs) == multiset(r) + multiset(s[n..]);
      forall x, i | x in multiset(xs) - multiset(r) && 0 <= i < |r| ensures key(x) <= key(r[i]) {
        assert x in multiset(s[n..]);
        var k :| 0 <= k < |s[n..]| && s[n..][k] == x;
        assert s[n + k] == x;
      }
    }
  }

  /** The key column of a sequence. */
  function Keys<T>(s: seq<T>, key: T -> nat): (ks: seq<nat>)
    ensures |ks| == |s|
    decreases |s|
  {
    if s == [] then [] else [key(s[0])] + Keys(s[1..], key)
  }

  lemma {:induction false} KeysAt<T>(s: seq<T>, key: T -> nat, i: nat)
    requires i < |s|
    ensures Keys(s, key)[i] == key(s[i])
    decreases |s|
  {
    if i > 0 {
      KeysAt(s[1..], key, i - 1);
    }
  }

  /** Non-increasing numbers. */
  predicate NonIncreasing(p: seq<nat>)
  {
    forall i, j :: 0 <= i < j < |p| ==> p[i] >= p[j]
  }

  /** Removing the element at `j` removes one copy from the multiset. */
  lemma RemoveAt<T>(b: seq<T>, j: nat)
    requires j < |b|
    ensures multiset(b[..j] + b[j + 1..]) == multiset(b) - multiset{b[j]}
  {
    SplitAt(b, j);
  }

  lemma {:induction false} KeysAppend<T>(a: seq<T>, b: seq<T>, key: T -> nat)
    ensures Keys(a + b, key) == Keys(a, key) + Keys(b, key)
    decreases |a|
  {
    if a == [] {
      assert a + b == b;
    } else {
      assert (a + b)[1..] == a[1..] + b;
      KeysAppend(a[1..], b, key);
    }
  }

  lemma MultisetSplit<U>(l: seq<U>, x: U, m: seq<U>)
    ensures multiset(l + [x] + m) == multiset(l + m) + multiset{x}
  {
  }

  lemma SplitAt<T>(b: seq<T>, j: nat)
    requires j < |b|
    ensures b == (b[..j] + [b[j]]) + b[j + 1..]
  {
  }

  /** The key column around position `j`. */
  lemma KeysAround<T>(b: seq<T>, j: nat, key: T -> nat)
    requires j < |b|
    ensures Keys(b, key) == Keys(b[..j], key) + [key(b[j])] + Keys(b[j + 1..], key)
  {
    var l, x, m := b[..j], b[j], b[j + 1..];
    SplitAt(b, j);
    KeysAppend(l + [x], m, key);
    KeysAppend(l, [x], key);
    assert Keys([x], key) == [key(x)];
  }

  /** Taking out the element at `j` takes one copy of it out of the
      element multiset and one copy of its key out of the key multiset. */
  lemma KeysRemoveAt<T>(b: seq<T>, j: nat, key: T -> nat)
    requires j < |b|
    ensures multiset(b[..j] + b[j + 1..]) == multiset(b) - multiset{b[j]}
    ensures multiset(Keys(b, key)) == multiset(Keys(b[..j] + b[j + 1..], key)) + multiset{key(b[j])}
  {
    RemoveAt(b, j);
    KeysAround(b, j, key);
    KeysAppend(b[..j], b[j + 1..], key);
    MultisetSplit(Keys(b[..j], key), key(b[j]), Keys(b[j + 1..], key));
  }

  lemma KeysHead<T>(a: seq<T>, key: T -> nat)
    requires a != []
    ensures multiset(a[1..]) == multiset(a) - multiset{a[0]}
    ensures multiset(Keys(a, key)) == multiset(Keys(a[1..], key)) + multiset{key(a[0])}
  {
    TailMultiset(a);
    var k := Keys(a[1..], key);
    assert Keys(a, key) == [key(a[0])] + k;
    assert multiset([key(a[0])] + k) == multiset{key(a[0])} + multiset(k);
  }

  /** Equal element multisets have equal key multisets. */
  lemma {:induction false} KeysOfPermutation<T>(a: seq<T>, b: seq<T>, key: T -> nat)
    requires multiset(a) == multiset(b)
    ensures multiset(Keys(a, key)) == multiset(Keys(b, key))
    decreases |a|
  {
    if a != [] {
      var x := a[0];
      var j :| 0 <= j < |b| && b[j] == x by {
        assert x in multiset(a);
      }
      var rest := b[..j] + b[j + 1..];
      KeysRemoveAt(b, j, key);
      KeysHead(a, key);
      KeysOfPermutation(a[1..], rest, key);
    }
  }

  /** The head of a non-increasing sequence bounds all its values. */
  lemma HeadIsMax(p: seq<nat>, v: nat)
    requires NonIncreasing(p) && v in multiset(p)
    ensures p[0] >= v
  {
    var k :| 0 <= k < |p| && p[k] == v;
  }

  lemma TailMultiset<T>(p: seq<T>)
    requires p != []
    ensures multiset(p[1..]) == multiset(p) - multiset{p[0]}
  {
    assert p == [p[0]] + p[1..];
  }

  /** Two non-increasing sequences of numbers with the same multiset are
      equal. */
  lemma {:induction false} SortedNumbersUnique(p: seq<nat>, q: seq<nat>)
    requires NonIncreasing(p) && NonIncreasing(q)
    requires multiset(p) == multiset(q)
    ensures p == q
    decreases |p|
  {
    assert |p| == |q| by {
      assert |p| == |multiset(p)| && |q| == |multiset(q)|;
    }
    if p != [] {
      assert p[0] == q[0] by {
        assert p[0] in multiset(p) && q[0] in multiset(q);
        HeadIsMax(q, p[0]);
        HeadIsMax(p, q[0]);
      }
      assert multiset(p[1..]) == multiset(q[1..]) by {
        TailMultiset(p);
        TailMultiset(q);
      }
      SortedNumbersUnique(p[1..], q[1..]);
      assert p == [p[0]] + p[1..] && q == [q[0]] + q[1..];
    }
  }

  /** Whatever order `sort.Slice` leaves equal keys in, the keys read from
      first to last are the same as the model's. */
  lemma SortedKeysAgree<T>(xs: seq<T>, r: seq<T>, key: T -> nat)
    requires multiset(r) == multiset(xs) && SortedDesc(r, key)
    ensures Keys(r, key) == Keys(SortDesc(xs, key), key)
  {
    var s := SortDesc(xs, key);
    KeysOfPermutation(r, s, key);
    forall t | t == r || t == s ensures NonIncreasing(Keys(t, key)) {
      forall i, j | 0 <= i < j < |t| ensures Keys(t, key)[i] >= Keys(t, key)[j] {
        KeysAt(t, key, i);
        KeysAt(t, key, j);
      }
    }
    SortedNumbersUnique(Keys(r, key), Keys(s, key));
  }

  /** Whatever order `sort.Slice` leaves equal keys in, its first `n`
      elements have the same keys as the model's top `n`. */
  lemma TopNKeysAgree<T>(xs: seq<T>, r: seq<T>, key: T -> nat, n: nat)
    requires multiset(r) == multiset(xs) && SortedDesc(r, key)
    ensures Keys(r[..Min(n, |r|)], key) == Keys(TopN(xs, key, n), key)
  {
    var s := SortDesc(xs, key);
    assert |r| == |xs| by {
      assert |multiset(r)| == |multiset(xs)|;
    }
    var m := Min(n, |r|);
    SortedKeysAgree(xs, r, key);
    assert Keys(r[..m], key) == Keys(r, key)[..m] by {
      assert r == r[..m] + r[m..];
      KeysAppend(r[..m], r[m..], key);
    }
    assert Keys(s[..m], key) == Keys(s, key)[..m] by {
      assert s == s[..m] + s[m..];
      KeysAppend(s[..m], s[m..], key);
    }
    assert TopN(xs, key, n) == s[..m];
  }

  /** No element occurs twice. */
  ghost predicate NoRepeats<T>(s: seq<T>)
  {
    forall i, j :: 0 <= i < j < |s| ==> s[i] != s[j]
  }

  lemma {:induction false} NoRepeatsCount<T>(p: seq<T>, x: T)
    requires NoRepeats(p)
    ensures multiset(p)[x] <= 1
    decreases |p|
  {
    if p != [] {
      var n := |p| - 1;
      NoRepeatsCount(p[..n], x);
      assert p == p[..n] + [p[n]];
      if x == p[n] {
        assert x !in p[..n];
      }
    }
  }

  lemma TwoCopies<T>(r: seq<T>, i: nat, j: nat)
    requires i < j < |r| && r[i] == r[j]
    ensures multiset(r)[r[i]] >= 2
  {
    assert r == r[..j] + r[j..];
    assert r[..j][i] == r[i] && r[j..][0] == r[j];
    assert multiset(r) == multiset(r[..j]) + multiset(r[j..]);
  }

  /** Part of a repetition-free collection repeats nothing either. */
  lemma SubOfNoRepeats<T>(r: seq<T>, p: seq<T>)
    requires multiset(r) <= multiset(p) && NoRepeats(p)
    ensures NoRepeats(r)
  {
    forall i, j | 0 <= i < j < |r| ensures r[i] != r[j] {
      if r[i] == r[j] {
        TwoCopies(r, i, j);
        NoRepeatsCount(p, r[i]);
      }
    }
  }
}
