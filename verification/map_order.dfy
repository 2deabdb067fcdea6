/** Go's `for k, v := range m` visits the keys of a map in an unspecified
    order. Where the analyzer's output depends on that order, the model takes
    the order as a parameter: a sequence that lists every key exactly once.
    `Total` is the order-free sum of a map's values, and `SumOver` the sum a
    range loop accumulates; `SumOverIsTotal` shows every order gives the
    same sum. */
module MapOrder {

  /** `order` lists each key of `keys` exactly once. */
  predicate Enumerates<K>(order: seq<K>, keys: set<K>)
  {
    && (forall i :: 0 <= i < |order| ==> order[i] in keys)
    && (forall k :: k in keys ==> k in order)
    && (forall i, j :: 0 <= i < j < |order| ==> order[i] != order[j])
  }

  /** Dropping the last key of an enumeration enumerates the other keys. */
  lemma EnumerationInit<K>(order: seq<K>, keys: set<K>)
    requires Enumerates(order, keys) && order != []
    ensures Enumerates(order[..|order| - 1], keys - {order[|order| - 1]})
  {
    var n := |order| - 1;
    var init := order[..n];
    forall k | k in keys - {order[n]} ensures k in init {
      var i :| 0 <= i < |order| && order[i] == k;
      assert init[i] == k;
    }
  }

  /** An enumeration is as long as the key set is large. */
  lemma {:induction false} EnumerationSize<K>(order: seq<K>, keys: set<K>)
    requires Enumerates(order, keys)
    ensures |order| == |keys|
    decreases |order|
  {
    if order == [] {
      assert keys == {};
    } else {
      EnumerationInit(order, keys);
      EnumerationSize(order[..|order| - 1], keys - {order[|order| - 1]});
    }
  }

  /** The sum of the values of `m`, independent of any order. */
  ghost function Total<K>(m: map<K, nat>): nat
    decreases |m|
  {
    if m == map[] then 0
    else
      var k :| k in m;
      m[k] + Total(m - {k})
  }

  /** Any key can be taken out first. */
  lemma {:induction false} TotalRemove<K>(m: map<K, nat>, k: K)
    requires k in m
    ensures Total(m) == m[k] + Total(m - {k})
    decreases |m|
  {
    var c :| c in m && Total(m) == m[c] + Total(m - {c});
    if c != k {
      TotalRemove(m - {c}, k);
      TotalRemove(m - {k}, c);
      assert (m - {c}) - {k} == (m - {k}) - {c};
    }
  }

  /** The values are all zero exactly when their total is. */
  lemma {:induction false} TotalZero<K>(m: map<K, nat>)
    ensures Total(m) == 0 <==> forall k :: k in m ==> m[k] == 0
    decreases |m|
  {
    if m != map[] {
      var k :| k in m;
      TotalRemove(m, k);
      TotalZero(m - {k});
      assert forall j :: j in m - {k} ==> (m - {k})[j] == m[j];
    }
  }

  /** `m[k]++` on a map read with a zero default adds one to the total. */
  lemma TotalBump<K>(m: map<K, nat>, k: K, prev: nat)
    requires prev == (if k in m then m[k] else 0)
    ensures Total(m[k := prev + 1]) == Total(m) + 1
  {
    var m' := m[k := prev + 1];
    TotalRemove(m', k);
    if k in m {
      TotalRemove(m, k);
      assert m' - {k} == m - {k};
    } else {
      assert m' - {k} == m;
    }
  }

  /** A range loop summing the values, visiting the keys in `order`. */
  function SumOver<K>(m: map<K, nat>, order: seq<K>): nat
    requires forall i :: 0 <= i < |order| ==> order[i] in m
    decreases |order|
  {
    if order == [] then 0 else SumOver(m, order[..|order| - 1]) + m[order[|order| - 1]]
  }

  /** Summing the values of `m` over its own keys gives the same total
      whatever the order. */
  lemma {:induction false} SumOverIsTotal<K>(m: map<K, nat>, order: seq<K>)
    requires Enumerates(order, m.Keys)
    ensures SumOver(m, order) == Total(m)
    decreases |order|
  {
    if order == [] {
      EnumerationSize(order, m.Keys);
      assert m == map[];
    } else {
      var n := |order| - 1;
      var last := order[n];
      var rest := m - {last};
      EnumerationInit(order, m.Keys);
      assert rest.Keys == m.Keys - {last};
      assert SumOver(m, order[..n]) == SumOver(rest, order[..n]) by {
        SumOverAgrees(m, rest, order[..n]);
      }
      SumOverIsTotal(rest, order[..n]);
      TotalRemove(m, last);
    }
  }

  /** Two maps that agree on the visited keys give the same sum. */
  lemma {:induction false} SumOverAgrees<K>(m: map<K, nat>, m': map<K, nat>, order: seq<K>)
    requires forall i :: 0 <= i < |order| ==> order[i] in m && order[i] in m' && m[order[i]] == m'[order[i]]
    ensures SumOver(m, order) == SumOver(m', order)
    decreases |order|
  {
    if order != [] {
      SumOverAgrees(m, m', order[..|order| - 1]);
    }
  }
}
