/** Python's insertion-ordered `dict` with real values, as a sequence of entries.
    Assigning to an existing key overwrites that entry where it stands; assigning
    to a new key appends it. */
module OrderedDicts {
  import opened Numbers

  function Keys<K>(d: seq<(K, real)>): set<K>
  {
    set i | 0 <= i < |d| :: d[i].0
  }

  predicate DistinctKeys<K(==)>(d: seq<(K, real)>)
  {
    forall i, j :: 0 <= i < j < |d| ==> d[i].0 != d[j].0
  }

  /** The values of the dict in iteration order (`d.values()`). */
  function Values<K>(d: seq<(K, real)>): (r: seq<real>)
    ensures |r| == |d|
    ensures forall i :: 0 <= i < |d| ==> r[i] == d[i].1
  {
    seq(|d|, i requires 0 <= i < |d| => d[i].1)
  }

  /** `d.get(k, default)`. */
  function Get<K(==)>(d: seq<(K, real)>, k: K, default: real): (v: real)
    ensures k !in Keys(d) ==> v == default
    ensures k in Keys(d) ==> exists i :: 0 <= i < |d| && d[i] == (k, v)
  {
    if |d| == 0 then default
    else if d[|d| - 1].0 == k then d[|d| - 1].1
    else
      assert Keys(d) == Keys(d[..|d| - 1]) + {d[|d| - 1].0};
      Get(d[..|d| - 1], k, default)
  }

  /** `d` with every entry under key `k` given the value `v`, each where it stands. */
  function Overwrite<K(==)>(d: seq<(K, real)>, k: K, v: real): (r: seq<(K, real)>)
    ensures |r| == |d|
    ensures forall i :: 0 <= i < |d| ==> r[i] == (if d[i].0 == k then (k, v) else d[i])
  {
    if |d| == 0 then []
    else
      var n := |d| - 1;
      Overwrite(d[..n], k, v) + [if d[n].0 == k then (k, v) else d[n]]
  }

  /** `d[k] = v`: an existing entry for `k` is updated in place, a new key is
      appended at the end. */
  function Put<K(==)>(d: seq<(K, real)>, k: K, v: real): (r: seq<(K, real)>)
    ensures |r| == if k in Keys(d) then |d| else |d| + 1
    ensures forall i :: 0 <= i < |d| ==> r[i] == (if d[i].0 == k then (k, v) else d[i])
    ensures k !in Keys(d) ==> r[|d|] == (k, v)
  {
    if k in Keys(d) then Overwrite(d, k, v) else d + [(k, v)]
  }

  /** `d[k] = v` adds `k` to the keys and no other. */
  lemma PutKeys<K>(d: seq<(K, real)>, k: K, v: real)
    ensures Keys(Put(d, k, v)) == Keys(d) + {k}
  {
    var r := Put(d, k, v);
    forall x | x in Keys(r) ensures x in Keys(d) + {k} {
      var i :| 0 <= i < |r| && r[i].0 == x;
      if i < |d| { assert d[i].0 == x || x == k; }
    }
    forall x | x in Keys(d) + {k} ensures x in Keys(r) {
      if x in Keys(d) {
        var i :| 0 <= i < |d| && d[i].0 == x;
        assert r[i].0 == x;
      } else {
        assert r[|d|].0 == x;
      }
    }
  }

  /** `d[k] = v` keeps the keys distinct. */
  lemma PutDistinct<K>(d: seq<(K, real)>, k: K, v: real)
    requires DistinctKeys(d)
    ensures DistinctKeys(Put(d, k, v))
  {
    var r := Put(d, k, v);
    forall i, j | 0 <= i < j < |r| ensures r[i].0 != r[j].0 {
      if j == |d| {
        assert k !in Keys(d);
        assert d[i].0 in Keys(d);
      }
    }
  }

  /** `d` with `x` added to the value of every entry under key `k`, each where it
      stands. */
  function AddTo<K(==)>(d: seq<(K, real)>, k: K, x: real): (r: seq<(K, real)>)
    ensures |r| == |d|
    ensures forall i :: 0 <= i < |d| ==> r[i] == (if d[i].0 == k then (k, d[i].1 + x) else d[i])
  {
    if |d| == 0 then []
    else
      var n := |d| - 1;
      AddTo(d[..n], k, x) + [if d[n].0 == k then (k, d[n].1 + x) else d[n]]
  }

  /** `d[k] = d.get(k, 0.0) + x`: an existing entry for `k` grows by `x` where it
      stands, a new key is appended with value `x`. */
  function Accumulate<K(==)>(d: seq<(K, real)>, k: K, x: real): (r: seq<(K, real)>)
    ensures |r| == if k in Keys(d) then |d| else |d| + 1
    ensures forall i :: 0 <= i < |d| ==> r[i] == (if d[i].0 == k then (k, d[i].1 + x) else d[i])
    ensures k !in Keys(d) ==> r[|d|] == (k, x)
  {
    if k in Keys(d) then AddTo(d, k, x) else d + [(k, x)]
  }

  /** Looking up the key stored at position `i` yields that entry's value. */
  lemma {:induction false} GetAt<K>(d: seq<(K, real)>, i: nat, default: real)
    requires DistinctKeys(d) && i < |d|
    ensures Get(d, d[i].0, default) == d[i].1
  {
    if i < |d| - 1 {
      GetAt(d[..|d| - 1], i, default);
    }
  }

  /** Looking up an absent key yields the default. */
  lemma {:induction false} GetAbsent<K>(d: seq<(K, real)>, k: K, default: real)
    requires k !in Keys(d)
    ensures Get(d, k, default) == default
  {
    if |d| > 0 {
      var n := |d| - 1;
      assert d[n].0 in Keys(d);
      assert Keys(d[..n]) <= Keys(d) by {
        forall x | x in Keys(d[..n]) ensures x in Keys(d) {
          var i :| 0 <= i < n && d[..n][i].0 == x;
          assert d[i].0 == x;
        }
      }
      GetAbsent(d[..n], k, default);
    }
  }

  /** Assigning `d[k] = v` replaces the old value of `k` (zero when absent) by `v` in
      the sum of all values. */
  lemma PutSum<K>(d: seq<(K, real)>, k: K, v: real)
    requires DistinctKeys(d)
    ensures Sum(Values(Put(d, k, v))) == Sum(Values(d)) - Get(d, k, 0.0) + v
  {
    if k in Keys(d) {
      var i :| 0 <= i < |d| && d[i].0 == k;
      GetAt(d, i, 0.0);
      assert Values(Put(d, k, v)) == Values(d)[i := v];
      SumUpdate(Values(d), i, v);
    } else {
      GetAbsent(d, k, 0.0);
      assert Values(Put(d, k, v)) == Values(d) + [v];
      SumSnoc(Values(d), v);
    }
  }

  /** Accumulating `x` under any key keeps the keys distinct, raises the sum of all
      values by exactly `x` and raises that key's value by `x`. */
  lemma AccumulateSum<K>(d: seq<(K, real)>, k: K, x: real)
    requires DistinctKeys(d)
    ensures DistinctKeys(Accumulate(d, k, x))
    ensures Sum(Values(Accumulate(d, k, x))) == Sum(Values(d)) + x
    ensures Get(Accumulate(d, k, x), k, 0.0) == Get(d, k, 0.0) + x
  {
    AccumulateDistinct(d, k, x);
    AccumulateTotal(d, k, x);
    var r := Accumulate(d, k, x);
    if k in Keys(d) {
      var i :| 0 <= i < |d| && d[i].0 == k;
      GetAt(d, i, 0.0);
      GetAt(r, i, 0.0);
    } else {
      GetAbsent(d, k, 0.0);
      assert r[|r| - 1] == (k, x);
    }
  }

  lemma AccumulateDistinct<K>(d: seq<(K, real)>, k: K, x: real)
    requires DistinctKeys(d)
    ensures DistinctKeys(Accumulate(d, k, x))
  {
    var r := Accumulate(d, k, x);
    forall i, j | 0 <= i < j < |r| ensures r[i].0 != r[j].0 {
      if j == |d| {
        assert d[i].0 in Keys(d);
      }
    }
  }

  lemma AccumulateTotal<K>(d: seq<(K, real)>, k: K, x: real)
    requires DistinctKeys(d)
    ensures Sum(Values(Accumulate(d, k, x))) == Sum(Values(d)) + x
  {
    var vr, vd := Values(Accumulate(d, k, x)), Values(d);
    if k in Keys(d) {
      var i :| 0 <= i < |d| && d[i].0 == k;
      assert vr == vd[i := vd[i] + x];
      SumUpdate(vd, i, vd[i] + x);
    } else {
      assert vr == vd + [x];
      SumSnoc(vd, x);
    }
  }

  /** Accumulating under `k` leaves every other key's value alone. */
  lemma AccumulateOther<K>(d: seq<(K, real)>, k: K, x: real, other: K)
    requires DistinctKeys(d) && other != k
    ensures Get(Accumulate(d, k, x), other, 0.0) == Get(d, other, 0.0)
  {
    var r := Accumulate(d, k, x);
    AccumulateSum(d, k, x);
    AccumulateKeys(d, k, x);
    if other in Keys(d) {
      var i :| 0 <= i < |d| && d[i].0 == other;
      assert r[i] == d[i];
      GetAt(d, i, 0.0);
      GetAt(r, i, 0.0);
    } else {
      GetAbsent(d, other, 0.0);
      GetAbsent(r, other, 0.0);
    }
  }

  /** Accumulating under `k` adds `k` to the keys and no other. */
  lemma AccumulateKeys<K>(d: seq<(K, real)>, k: K, x: real)
    ensures Keys(Accumulate(d, k, x)) == Keys(d) + {k}
  {
    var r := Accumulate(d, k, x);
    forall y | y in Keys(r) ensures y in Keys(d) + {k} {
      var i :| 0 <= i < |r| && r[i].0 == y;
      if i < |d| { assert d[i].0 == y || y == k; }
    }
    forall y | y in Keys(d) + {k} ensures y in Keys(r) {
      if y in Keys(d) {
        var i :| 0 <= i < |d| && d[i].0 == y;
        assert r[i].0 == y;
      } else {
        assert r[|d|].0 == y;
      }
    }
  }

  /** Accumulating is the assignment `d[k] = d.get(k, 0.0) + x`. */
  lemma AccumulateIsPut<K>(d: seq<(K, real)>, k: K, x: real, v: real)
    requires DistinctKeys(d) && v == Get(d, k, 0.0) + x
    ensures Accumulate(d, k, x) == Put(d, k, v)
  {
    var r, p := Accumulate(d, k, x), Put(d, k, v);
    if k in Keys(d) {
      var i :| 0 <= i < |d| && d[i].0 == k;
      GetAt(d, i, 0.0);
      forall j | 0 <= j < |d| ensures r[j] == p[j] {
        if d[j].0 == k { assert i == j; }
      }
    } else {
      GetAbsent(d, k, 0.0);
      assert r[|d|] == p[|d|];
    }
  }

  /** After `d[k] = v`, `d.get(k)` returns `v`. */
  lemma GetAfterPut<K>(d: seq<(K, real)>, k: K, v: real, default: real)
    requires DistinctKeys(d)
    ensures Get(Put(d, k, v), k, default) == v
  {
    var r := Put(d, k, v);
    PutDistinct(d, k, v);
    if k in Keys(d) {
      var i :| 0 <= i < |d| && d[i].0 == k;
      assert r[i] == (k, v);
      GetAt(r, i, default);
    } else {
      assert r[|d|] == (k, v);
    }
  }

  /** `d[k] = v` leaves every other key's value alone. */
  lemma GetOtherAfterPut<K>(d: seq<(K, real)>, k: K, v: real, other: K, default: real)
    requires DistinctKeys(d) && other != k
    ensures Get(Put(d, k, v), other, default) == Get(d, other, default)
  {
    var r := Put(d, k, v);
    PutDistinct(d, k, v);
    PutKeys(d, k, v);
    if k in Keys(d) {
      if other in Keys(d) {
        var i :| 0 <= i < |d| && d[i].0 == other;
        assert r[i] == d[i];
        GetAt(d, i, default);
        GetAt(r, i, default);
      } else {
        GetAbsent(d, other, default);
        GetAbsent(r, other, default);
      }
    } else {
      assert r[..|d|] == d;
    }
  }

  /** The keys of a sequence are those of all but its last element, plus the last. */
  lemma KeysSnoc<K>(keys: seq<K>, front: seq<K>)
    requires |keys| > 0 && front == keys[..|keys| - 1]
    ensures (set j | 0 <= j < |keys| :: keys[j]) == (set j | 0 <= j < |front| :: front[j]) + {keys[|keys| - 1]}
  {
    var n := |keys| - 1;
    forall j | 0 <= j < |keys| ensures keys[j] in (set j | 0 <= j < n :: keys[..n][j]) + {keys[n]} {
      if j < n { assert keys[..n][j] == keys[j]; }
    }
  }

  /** The dict built by `for k, v in zip(keys, vals): d[k] = v`, from empty. */
  function PutAll<K(==)>(keys: seq<K>, vals: seq<real>): (d: seq<(K, real)>)
    requires |keys| == |vals|
    ensures DistinctKeys(d)
    ensures Keys(d) == set j | 0 <= j < |keys| :: keys[j]
  {
    if |keys| == 0 then []
    else
      var n := |keys| - 1;
      var d := PutAll(keys[..n], vals[..n]);
      KeysSnoc(keys, keys[..n]);
      PutKeys(d, keys[n], vals[n]);
      PutDistinct(d, keys[n], vals[n]);
      Put(d, keys[n], vals[n])
  }

  /** One more key and value: `PutAll` of the longer lists is one more `Put`. */
  lemma PutAllSnoc<K>(keys: seq<K>, vals: seq<real>, k: K, v: real)
    requires |keys| == |vals|
    ensures PutAll(keys + [k], vals + [v]) == Put(PutAll(keys, vals), k, v)
  {
    assert (keys + [k])[..|keys|] == keys;
    assert (vals + [v])[..|vals|] == vals;
  }

  /** With distinct keys nothing is overwritten: the values are `vals`, so they
      add up to `sum(vals)`. */
  lemma {:induction false} PutAllDistinct<K>(keys: seq<K>, vals: seq<real>)
    requires |keys| == |vals|
    requires forall i, j :: 0 <= i < j < |keys| ==> keys[i] != keys[j]
    ensures Values(PutAll(keys, vals)) == vals
    ensures Sum(Values(PutAll(keys, vals))) == Sum(vals)
  {
    if |keys| > 0 {
      var n := |keys| - 1;
      PutAllDistinct(keys[..n], vals[..n]);
      assert keys[n] !in Keys(PutAll(keys[..n], vals[..n]));
      assert vals[..n] + [vals[n]] == vals;
    }
  }

  /** A later assignment to the same key wins: the value kept for `keys[j]` is
      `vals[j]` when no later position holds that key. */
  lemma {:induction false} PutAllLastWins<K>(keys: seq<K>, vals: seq<real>, j: nat, default: real)
    requires |keys| == |vals| && j < |keys|
    requires forall l :: j < l < |keys| ==> keys[l] != keys[j]
    ensures Get(PutAll(keys, vals), keys[j], default) == vals[j]
  {
    var n := |keys| - 1;
    if j == n {
      PutAllLast(keys, vals, default);
    } else {
      PutAllLastWins(keys[..n], vals[..n], j, default);
      PutAllEarlier(keys, vals, j, default);
    }
  }

  lemma PutAllLast<K>(keys: seq<K>, vals: seq<real>, default: real)
    requires |keys| == |vals| && |keys| > 0
    ensures Get(PutAll(keys, vals), keys[|keys| - 1], default) == vals[|keys| - 1]
  {
    var n := |keys| - 1;
    GetAfterPut(PutAll(keys[..n], vals[..n]), keys[n], vals[n], default);
  }

  lemma PutAllEarlier<K>(keys: seq<K>, vals: seq<real>, j: nat, default: real)
    requires |keys| == |vals| && j < |keys| - 1 && keys[|keys| - 1] != keys[j]
    requires Get(PutAll(keys[..|keys| - 1], vals[..|keys| - 1]), keys[j], default) == vals[j]
    ensures Get(PutAll(keys, vals), keys[j], default) == vals[j]
  {
    var n := |keys| - 1;
    GetOtherAfterPut(PutAll(keys[..n], vals[..n]), keys[n], vals[n], keys[j], default);
  }

  /** The dict built by `for k, x in zip(keys, xs): d[k] = d.get(k, 0.0) + x`. */
  function AccumulateAll<K(==)>(keys: seq<K>, xs: seq<real>): (d: seq<(K, real)>)
    requires |keys| == |xs|
    ensures DistinctKeys(d)
  {
    if |keys| == 0 then []
    else
      var n := |keys| - 1;
      var d := AccumulateAll(keys[..n], xs[..n]);
      AccumulateSum(d, keys[n], xs[n]);
      Accumulate(d, keys[n], xs[n])
  }

  /** The keys of an accumulated dict are the keys seen, each once. */
  lemma {:induction false} AccumulateAllKeys<K>(keys: seq<K>, xs: seq<real>)
    requires |keys| == |xs|
    ensures Keys(AccumulateAll(keys, xs)) == set j | 0 <= j < |keys| :: keys[j]
  {
    if |keys| > 0 {
      var n := |keys| - 1;
      var d := AccumulateAll(keys[..n], xs[..n]);
      AccumulateAllKeys(keys[..n], xs[..n]);
      AccumulateKeys(d, keys[n], xs[n]);
      KeysSnoc(keys, keys[..n]);
      assert AccumulateAll(keys, xs) == Accumulate(d, keys[n], xs[n]);
    }
  }

  /** One more step of the accumulation loop `d[k] = d.get(k, 0.0) + x`. */
  lemma AccumulateStep<K>(keys: seq<K>, xs: seq<real>, j: nat, d: seq<(K, real)>, k: K, x: real)
    requires |keys| == |xs| && j < |keys|
    requires d == AccumulateAll(keys[..j], xs[..j]) && k == keys[j] && x == xs[j]
    ensures Accumulate(d, k, x) == AccumulateAll(keys[..j + 1], xs[..j + 1])
  {
    assert keys[..j + 1][..j] == keys[..j];
    assert xs[..j + 1][..j] == xs[..j];
  }

  /** The total of the entries of `xs` whose key is `k` (a group-by sum). */
  function SumWhere<K(==)>(keys: seq<K>, xs: seq<real>, k: K): real
    requires |keys| == |xs|
  {
    if |keys| == 0 then 0.0
    else
      var n := |keys| - 1;
      SumWhere(keys[..n], xs[..n], k) + (if keys[n] == k then xs[n] else 0.0)
  }

  /** Accumulation loses nothing: the values add up to `sum(xs)`. */
  lemma {:induction false} AccumulateAllSum<K>(keys: seq<K>, xs: seq<real>)
    requires |keys| == |xs|
    ensures Sum(Values(AccumulateAll(keys, xs))) == Sum(xs)
  {
    if |keys| > 0 {
      var n := |keys| - 1;
      AccumulateAllSum(keys[..n], xs[..n]);
      AccumulateTotal(AccumulateAll(keys[..n], xs[..n]), keys[n], xs[n]);
      assert xs[..n] + [xs[n]] == xs;
      SumSnoc(xs[..n], xs[n]);
    }
  }

  /** Accumulation is a group-by sum: every key holds the total of its entries. */
  lemma {:induction false} AccumulateAllGet<K>(keys: seq<K>, xs: seq<real>, k: K)
    requires |keys| == |xs|
    ensures Get(AccumulateAll(keys, xs), k, 0.0) == SumWhere(keys, xs, k)
  {
    if |keys| > 0 {
      var n := |keys| - 1;
      var d := AccumulateAll(keys[..n], xs[..n]);
      AccumulateAllGet(keys[..n], xs[..n], k);
      if keys[n] == k {
        AccumulateSum(d, k, xs[n]);
      } else {
        AccumulateOther(d, keys[n], xs[n], k);
      }
    }
  }
}
