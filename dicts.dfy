/**
 * Python dictionaries from participant names to amounts. A dictionary is its
 * keys in insertion order together with the value stored under each key; the
 * order matters because the debt simplifier picks "the first" debtor and
 * creditor.
 */
module Dicts {

  predicate NoDuplicates(s: seq<string>)
  {
    forall i, j :: 0 <= i < j < |s| ==> s[i] != s[j]
  }

  datatype OrderedMap = OrderedMap(keys: seq<string>, values: map<string, real>)

  /** Every key occurs once in the order, and exactly the ordered keys carry values. */
  ghost predicate IsDict(d: OrderedMap)
  {
    NoDuplicates(d.keys) && forall k :: k in d.values <==> k in d.keys
  }

  type Dict = d: OrderedMap | IsDict(d) witness OrderedMap([], map[])

  const Empty: Dict := OrderedMap([], map[])

  /** d[k] */
  function Get(d: Dict, k: string): real
    requires k in d.keys
  {
    d.values[k]
  }

  /** d[k] = v: overwrites the value of k where it stands, or appends k at the end. */
  function Put(d: Dict, k: string, v: real): (r: Dict)
    ensures r.keys == if k in d.keys then d.keys else d.keys + [k]
    ensures r.values == d.values[k := v]
  {
    if k in d.keys then OrderedMap(d.keys, d.values[k := v])
    else OrderedMap(d.keys + [k], d.values[k := v])
  }

  /** The keys without k, in the same order. */
  function RemoveKey(s: seq<string>, k: string): (r: seq<string>)
    ensures forall x :: x in r <==> x in s && x != k
    ensures NoDuplicates(s) ==> NoDuplicates(r)
    ensures k !in s ==> r == s
    ensures NoDuplicates(s) && k in s ==> |r| == |s| - 1
  {
    if s == [] then []
    else
      assert NoDuplicates(s) ==> NoDuplicates(s[1..]) && s[0] !in s[1..];
      if s[0] == k then RemoveKey(s[1..], k)
      else [s[0]] + RemoveKey(s[1..], k)
  }

  /** del d[k] */
  function Remove(d: Dict, k: string): (r: Dict)
    requires k in d.keys
    ensures forall x :: x in r.keys <==> x in d.keys && x != k
    ensures |r.keys| == |d.keys| - 1
    ensures r.values == d.values - {k}
  {
    OrderedMap(RemoveKey(d.keys, k), d.values - {k})
  }

  /** Sum of the values stored under the keys ks, in order. */
  function SumOver(ks: seq<string>, m: map<string, real>): real
    requires forall k :: k in ks ==> k in m
  {
    if ks == [] then 0.0 else m[ks[0]] + SumOver(ks[1..], m)
  }

  /** sum(d.values()) */
  function Sum(d: Dict): real
  {
    SumOver(d.keys, d.values)
  }

  /** Sum of a sequence of amounts, added left to right. */
  function Total(xs: seq<real>): real
  {
    if xs == [] then 0.0 else Total(xs[..|xs| - 1]) + xs[|xs| - 1]
  }

  /** The sum over keys only looks at the values of those keys. */
  lemma {:induction false} SumOverAgree(ks: seq<string>, m: map<string, real>, m': map<string, real>)
    requires forall k :: k in ks ==> k in m && k in m' && m[k] == m'[k]
    ensures SumOver(ks, m) == SumOver(ks, m')
  {
    if ks != [] {
      SumOverAgree(ks[1..], m, m');
    }
  }

  /** Changing the value of one listed key moves the sum by the difference. */
  lemma {:induction false} SumOverUpdate(ks: seq<string>, m: map<string, real>, k: string, v: real)
    requires forall x :: x in ks ==> x in m
    requires NoDuplicates(ks) && k in ks
    ensures SumOver(ks, m[k := v]) == SumOver(ks, m) - m[k] + v
  {
    if ks[0] == k {
      assert k !in ks[1..];
      SumOverAgree(ks[1..], m[k := v], m);
    } else {
      SumOverUpdate(ks[1..], m, k, v);
    }
  }

  /** Appending a key adds its value at the end. */
  lemma {:induction false} SumOverAppend(ks: seq<string>, m: map<string, real>, k: string)
    requires forall x :: x in ks ==> x in m
    requires k in m
    ensures SumOver(ks + [k], m) == SumOver(ks, m) + m[k]
  {
    if ks != [] {
      assert (ks + [k])[1..] == ks[1..] + [k];
      SumOverAppend(ks[1..], m, k);
    }
  }

  /** Assigning d[k] changes the sum by the difference between the new and the old value. */
  lemma SumPut(d: Dict, k: string, v: real)
    ensures Sum(Put(d, k, v)) == Sum(d) + v - (if k in d.keys then Get(d, k) else 0.0)
  {
    if k in d.keys {
      SumOverUpdate(d.keys, d.values, k, v);
    } else {
      SumOverAgree(d.keys, d.values[k := v], d.values);
      SumOverAppend(d.keys, d.values[k := v], k);
    }
  }

  /** {keys[i]: vals[i] for i in range(len(keys))}: a later duplicate key overwrites the value
      of the first one and keeps its place. */
  function FromPairs(keys: seq<string>, vals: seq<real>): (r: Dict)
    requires |keys| == |vals|
    ensures forall n :: n in r.keys <==> n in keys
    ensures NoDuplicates(keys) ==> r.keys == keys
  {
    if keys == [] then Empty
    else
      var n := |keys| - 1;
      assert forall x :: x in keys <==> x in keys[..n] || x == keys[n];
      assert keys == keys[..n] + [keys[n]];
      Put(FromPairs(keys[..n], vals[..n]), keys[n], vals[n])
  }

  /** When equal keys carry equal values, each key is bound to its value. */
  lemma {:induction false} FromPairsGet(keys: seq<string>, vals: seq<real>, i: int)
    requires |keys| == |vals|
    requires forall a, b :: 0 <= a < b < |keys| && keys[a] == keys[b] ==> vals[a] == vals[b]
    requires 0 <= i < |keys|
    ensures keys[i] in FromPairs(keys, vals).keys
    ensures Get(FromPairs(keys, vals), keys[i]) == vals[i]
  {
    var n := |keys| - 1;
    var prefix := FromPairs(keys[..n], vals[..n]);
    assert FromPairs(keys, vals) == Put(prefix, keys[n], vals[n]);
    if i == n || keys[i] == keys[n] {
      assert vals[i] == vals[n];
    } else {
      assert forall a, b :: 0 <= a < b < n && keys[..n][a] == keys[..n][b] ==> vals[..n][a] == vals[..n][b];
      FromPairsGet(keys[..n], vals[..n], i);
      assert keys[..n][i] == keys[i];
    }
  }

  /** Without duplicate keys the dictionary holds every value once. */
  lemma {:induction false} FromPairsSum(keys: seq<string>, vals: seq<real>)
    requires |keys| == |vals| && NoDuplicates(keys)
    ensures Sum(FromPairs(keys, vals)) == Total(vals)
  {
    if keys != [] {
      var n := |keys| - 1;
      var prefix := FromPairs(keys[..n], vals[..n]);
      assert FromPairs(keys, vals) == Put(prefix, keys[n], vals[n]);
      assert NoDuplicates(keys[..n]) && keys[n] !in keys[..n];
      FromPairsSum(keys[..n], vals[..n]);
      SumPut(prefix, keys[n], vals[n]);
    }
  }

  /** Position of x among the keys: its insertion rank. */
  function IndexOf(ns: seq<string>, x: string): (i: nat)
    requires x in ns
    ensures i < |ns| && ns[i] == x
  {
    if ns[0] == x then 0 else 1 + IndexOf(ns[1..], x)
  }

  /** Position of x in a sequence that starts with some names it does not contain. */
  lemma {:induction false} IndexOfAfter(head: seq<string>, rest: seq<string>, x: string)
    requires x in rest && x !in head
    ensures IndexOf(head + rest, x) == |head| + IndexOf(rest, x)
    decreases |head|
  {
    if head == [] {
      assert head + rest == rest;
    } else {
      assert (head + rest)[1..] == head[1..] + rest;
      IndexOfAfter(head[1..], rest, x);
    }
  }

  /** Taking one key out of the sum. */
  lemma {:induction false} SumOverRemoveKey(ks: seq<string>, m: map<string, real>, k: string)
    requires forall x :: x in ks ==> x in m
    requires NoDuplicates(ks) && k in ks
    ensures SumOver(ks, m) == m[k] + SumOver(RemoveKey(ks, k), m)
  {
    if ks[0] == k {
      assert k !in ks[1..];
    } else {
      assert NoDuplicates(ks[1..]);
      SumOverRemoveKey(ks[1..], m, k);
      assert RemoveKey(ks, k) == [ks[0]] + RemoveKey(ks[1..], k);
      assert ([ks[0]] + RemoveKey(ks[1..], k))[1..] == RemoveKey(ks[1..], k);
    }
  }

  /** The sum over keys does not depend on their order. */
  lemma {:induction false} SumOverReordered(ks1: seq<string>, ks2: seq<string>, m: map<string, real>)
    requires NoDuplicates(ks1) && NoDuplicates(ks2)
    requires forall k :: k in ks1 <==> k in ks2
    requires forall k :: k in ks1 ==> k in m
    ensures SumOver(ks1, m) == SumOver(ks2, m)
    decreases |ks1|
  {
    if ks1 != [] {
      var k := ks1[0];
      SumOverRemoveKey(ks2, m, k);
      assert NoDuplicates(ks1[1..]) && k !in ks1[1..];
      SumOverReordered(ks1[1..], RemoveKey(ks2, k), m);
    }
  }

  /** Adding n copies of c. */
  lemma {:induction false} TotalConstant(xs: seq<real>, c: real)
    requires forall i :: 0 <= i < |xs| ==> xs[i] == c
    ensures Total(xs) == |xs| as real * c
  {
    if xs != [] {
      TotalConstant(xs[..|xs| - 1], c);
    }
  }

  /** Adding three amounts. */
  lemma TotalOfThree(a: real, b: real, c: real)
    ensures Total([a, b, c]) == a + b + c
  {
    assert [a, b, c][..2] == [a, b];
    assert [a, b][..1] == [a];
    assert [a][..0] == [];
    assert Total([a]) == a;
    assert Total([a, b]) == a + b;
  }

  /** Amounts each within half a cent of their counterparts add up to within half a
      cent per amount. */
  lemma {:induction false} TotalNear(xs: seq<real>, ys: seq<real>)
    requires |xs| == |ys|
    requires forall i :: 0 <= i < |xs| ==> -0.005 <= xs[i] - ys[i] <= 0.005
    ensures -(|xs| as real) * 0.005 <= Total(xs) - Total(ys) <= |xs| as real * 0.005
  {
    if xs != [] {
      var n := |xs| - 1;
      TotalNear(xs[..n], ys[..n]);
    }
  }

  /** n copies of x. */
  function Repeat(x: real, n: nat): (xs: seq<real>)
    ensures |xs| == n && forall i :: 0 <= i < n ==> xs[i] == x
  {
    if n == 0 then [] else Repeat(x, n - 1) + [x]
  }

  /** Amounts each within half a cent of x add up to within half a cent per amount
      of as many copies of x. */
  lemma {:induction false} TotalNearCopies(xs: seq<real>, x: real)
    requires forall i :: 0 <= i < |xs| ==> -0.005 <= xs[i] - x <= 0.005
    ensures -(|xs| as real) * 0.005 <= Total(xs) - Total(Repeat(x, |xs|)) <= |xs| as real * 0.005
  {
    if xs != [] {
      var n := |xs| - 1;
      TotalNearCopies(xs[..n], x);
      assert Repeat(x, |xs|)[..n] == Repeat(x, n);
    }
  }

  /** [m[k] for k in ks] */
  function Lookup(ks: seq<string>, m: map<string, real>): (xs: seq<real>)
    requires forall k :: k in ks ==> k in m
    ensures |xs| == |ks| && forall i :: 0 <= i < |ks| ==> xs[i] == m[ks[i]]
  {
    if ks == [] then [] else [m[ks[0]]] + Lookup(ks[1..], m)
  }

  /** Pairing keys with values looked up by key binds every key to its value. */
  lemma FromPairsLookup(ks: seq<string>, m: map<string, real>)
    requires forall k :: k in ks ==> k in m
    ensures forall k :: k in ks ==> k in FromPairs(ks, Lookup(ks, m)).keys && Get(FromPairs(ks, Lookup(ks, m)), k) == m[k]
  {
    var vals := Lookup(ks, m);
    forall k | k in ks ensures k in FromPairs(ks, vals).keys && Get(FromPairs(ks, vals), k) == m[k] {
      var i :| 0 <= i < |ks| && ks[i] == k;
      FromPairsGet(ks, vals, i);
    }
  }
}
