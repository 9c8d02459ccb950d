/** Group-by-and-sum, the aggregation every statistic table of the pipeline is
    built with, and duplicate removal. A grouped frame is modelled as a map from
    group key to summed value; the order of rows inside a group is not modelled. */
module Grouping {

  /** The sum of `val` over the elements of `xs` whose key is `k`: the reference
      definition of one group's aggregate. */
  function SumFor<T, K(==)>(xs: seq<T>, key: T -> K, val: T -> real, k: K): real
    decreases |xs|
  {
    if xs == [] then 0.0
    else SumFor(xs[..|xs| - 1], key, val, k) + (if key(xs[|xs| - 1]) == k then val(xs[|xs| - 1]) else 0.0)
  }

  /** The sum of `val` over all of `xs`. */
  function Sum<T>(xs: seq<T>, val: T -> real): real
    decreases |xs|
  {
    if xs == [] then 0.0 else Sum(xs[..|xs| - 1], val) + val(xs[|xs| - 1])
  }

  /** One more element adds its value. */
  lemma {:induction false} SumSnoc<T>(xs: seq<T>, x: T, val: T -> real)
    ensures Sum(xs + [x], val) == Sum(xs, val) + val(x)
  {
    assert (xs + [x])[..|xs|] == xs;
  }

  /** The groups present in `xs`. */
  function KeysOf<T, K>(xs: seq<T>, key: T -> K): set<K>
  {
    set i | 0 <= i < |xs| :: key(xs[i])
  }

  /** Every element counts one. */
  function One<T>(x: T): real { 1.0 }

  /** A group that no element belongs to sums to zero. */
  lemma {:induction false} SumForAbsent<T, K>(xs: seq<T>, key: T -> K, val: T -> real, k: K)
    requires k !in KeysOf(xs, key)
    ensures SumFor(xs, key, val, k) == 0.0
    decreases |xs|
  {
    if xs != [] {
      var p := xs[..|xs| - 1];
      assert KeysOf(p, key) <= KeysOf(xs, key) by {
        forall k' | k' in KeysOf(p, key) ensures k' in KeysOf(xs, key) {
          var i :| 0 <= i < |p| && key(p[i]) == k';
          assert key(xs[i]) == k';
        }
      }
      SumForAbsent(p, key, val, k);
      assert key(xs[|xs| - 1]) in KeysOf(xs, key);
    }
  }

  /** `groupby(key).agg(sum)`: one pass over the rows, adding each row's value to
      its group's running total. The result has exactly the groups present, and
      each holds the sum of its members' values. */
  function GroupSum<T, K(==)>(xs: seq<T>, key: T -> K, val: T -> real): (m: map<K, real>)
    ensures m.Keys == KeysOf(xs, key)
    ensures forall k :: k in m ==> m[k] == SumFor(xs, key, val, k)
    decreases |xs|
  {
    if xs == [] then map[]
    else
      var p := xs[..|xs| - 1];
      var x := xs[|xs| - 1];
      var m := GroupSum(p, key, val);
      assert KeysOf(xs, key) == KeysOf(p, key) + {key(x)} by {
        forall k' | k' in KeysOf(xs, key) ensures k' in KeysOf(p, key) + {key(x)} {
          var i :| 0 <= i < |xs| && key(xs[i]) == k';
          if i < |p| { assert key(p[i]) == k'; }
        }
        forall k' | k' in KeysOf(p, key) ensures k' in KeysOf(xs, key) {
          var i :| 0 <= i < |p| && key(p[i]) == k';
          assert key(xs[i]) == k';
        }
      }
      if key(x) in m then
        m[key(x) := m[key(x)] + val(x)]
      else
        SumForAbsent(p, key, val, key(x));
        m[key(x) := 0.0 + val(x)]
  }

  /** Grouped sums distribute over concatenation. */
  lemma {:induction false} SumForAppend<T, K>(xs: seq<T>, ys: seq<T>, key: T -> K, val: T -> real, k: K)
    ensures SumFor(xs + ys, key, val, k) == SumFor(xs, key, val, k) + SumFor(ys, key, val, k)
    decreases |ys|
  {
    if ys == [] {
      assert xs + ys == xs;
    } else {
      var zs := xs + ys;
      assert zs[..|zs| - 1] == xs + ys[..|ys| - 1];
      assert zs[|zs| - 1] == ys[|ys| - 1];
      SumForAppend(xs, ys[..|ys| - 1], key, val, k);
    }
  }

  /** Plain sums distribute over concatenation. */
  lemma {:induction false} SumAppend<T>(xs: seq<T>, ys: seq<T>, val: T -> real)
    ensures Sum(xs + ys, val) == Sum(xs, val) + Sum(ys, val)
    decreases |ys|
  {
    if ys == [] {
      assert xs + ys == xs;
    } else {
      var zs := xs + ys;
      assert zs[..|zs| - 1] == xs + ys[..|ys| - 1];
      assert zs[|zs| - 1] == ys[|ys| - 1];
      SumAppend(xs, ys[..|ys| - 1], val);
    }
  }

  /** Two value functions that agree on every element give the same sum. */
  lemma {:induction false} SumPointwise<T>(xs: seq<T>, f: T -> real, g: T -> real)
    requires forall i :: 0 <= i < |xs| ==> f(xs[i]) == g(xs[i])
    ensures Sum(xs, f) == Sum(xs, g)
    decreases |xs|
  {
    if xs != [] {
      SumPointwise(xs[..|xs| - 1], f, g);
    }
  }

  /** Two sequences that agree, position by position, on group membership and
      on the members' values have the same group sums. */
  lemma {:induction false} SumForMatching<T, U, K, L>(
    xs: seq<T>, keyx: T -> K, valx: T -> real, kx: K,
    ys: seq<U>, keyy: U -> L, valy: U -> real, ky: L)
    requires |xs| == |ys|
    requires forall i :: 0 <= i < |xs| ==> ((keyy(ys[i]) == ky) <==> (keyx(xs[i]) == kx))
    requires forall i :: 0 <= i < |xs| && keyx(xs[i]) == kx ==> valy(ys[i]) == valx(xs[i])
    ensures SumFor(ys, keyy, valy, ky) == SumFor(xs, keyx, valx, kx)
    decreases |xs|
  {
    if xs != [] {
      SumForMatching(xs[..|xs| - 1], keyx, valx, kx, ys[..|ys| - 1], keyy, valy, ky);
    }
  }

  lemma {:induction false} SumForCorresponding<T, U, K, L>(
    xs: seq<T>, keyx: T -> K, valx: T -> real, kx: K,
    ys: seq<U>, keyy: U -> L, valy: U -> real, ky: L, c: real)
    requires |xs| == |ys|
    requires forall i :: 0 <= i < |xs| ==> ((keyy(ys[i]) == ky) <==> (keyx(xs[i]) == kx))
    requires forall i :: 0 <= i < |xs| && keyx(xs[i]) == kx ==> valy(ys[i]) == c * valx(xs[i])
    ensures SumFor(ys, keyy, valy, ky) == c * SumFor(xs, keyx, valx, kx)
    decreases |xs|
  {
    if xs != [] {
      SumForCorresponding(xs[..|xs| - 1], keyx, valx, kx, ys[..|ys| - 1], keyy, valy, ky, c);
    }
  }

  /** A group with a single member sums to that member's value. */
  lemma {:induction false} SumForUnique<T, K>(xs: seq<T>, key: T -> K, val: T -> real, k: K, j: nat)
    requires j < |xs| && key(xs[j]) == k
    requires forall i :: 0 <= i < |xs| && i != j ==> key(xs[i]) != k
    ensures SumFor(xs, key, val, k) == val(xs[j])
    decreases |xs|
  {
    var p := xs[..|xs| - 1];
    if j < |xs| - 1 {
      SumForUnique(p, key, val, k, j);
    } else {
      assert k !in KeysOf(p, key);
      SumForAbsent(p, key, val, k);
    }
  }

  /** A group that is present has at least one member. */
  lemma {:induction false} CountPositive<T, K>(xs: seq<T>, key: T -> K, k: K)
    requires k in KeysOf(xs, key)
    ensures SumFor(xs, key, One, k) >= 1.0
    decreases |xs|
  {
    var p := xs[..|xs| - 1];
    if key(xs[|xs| - 1]) == k {
      NonNegative(p, key, k);
    } else {
      var i :| 0 <= i < |xs| && key(xs[i]) == k;
      assert key(p[i]) == k;
      CountPositive(p, key, k);
    }
  }

  lemma {:induction false} NonNegative<T, K>(xs: seq<T>, key: T -> K, k: K)
    ensures SumFor(xs, key, One, k) >= 0.0
    decreases |xs|
  {
    if xs != [] { NonNegative(xs[..|xs| - 1], key, k); }
  }

  predicate Distinct<T(==)>(s: seq<T>)
  {
    forall i, j :: 0 <= i < j < |s| ==> s[i] != s[j]
  }

  /** `ks` lists every element of `S` exactly once. */
  predicate Enumerates<K(==)>(ks: seq<K>, S: set<K>)
  {
    Distinct(ks) && (forall j :: 0 <= j < |ks| ==> ks[j] in S) && (forall k :: k in S ==> k in ks)
  }

  /** The sum of the entries of a table at the keys `ks`. */
  function SumOfEntries<K(==)>(m: map<K, real>, ks: seq<K>): real
    requires forall j :: 0 <= j < |ks| ==> ks[j] in m
    decreases |ks|
  {
    if ks == [] then 0.0 else SumOfEntries(m, ks[..|ks| - 1]) + m[ks[|ks| - 1]]
  }

  /** The group sums of `xs` at the keys `ks`. */
  function SumOverKeys<T, K(==)>(xs: seq<T>, key: T -> K, val: T -> real, ks: seq<K>): real
    decreases |ks|
  {
    if ks == [] then 0.0 else SumOverKeys(xs, key, val, ks[..|ks| - 1]) + SumFor(xs, key, val, ks[|ks| - 1])
  }

  /** The number of times `k` occurs in `ks`. */
  function Occurrences<K(==)>(ks: seq<K>, k: K): real
    decreases |ks|
  {
    if ks == [] then 0.0 else Occurrences(ks[..|ks| - 1], k) + (if ks[|ks| - 1] == k then 1.0 else 0.0)
  }

  lemma {:induction false} OccursOnce<K>(ks: seq<K>, k: K)
    requires Distinct(ks)
    ensures Occurrences(ks, k) == if k in ks then 1.0 else 0.0
    decreases |ks|
  {
    if ks != [] {
      var p := ks[..|ks| - 1];
      OccursOnce(p, k);
      assert k in ks <==> k in p || ks[|ks| - 1] == k;
      if ks[|ks| - 1] == k {
        assert k !in p;
      }
    }
  }

  lemma {:induction false} SumOverKeysEmpty<T, K>(key: T -> K, val: T -> real, ks: seq<K>)
    ensures SumOverKeys([], key, val, ks) == 0.0
    decreases |ks|
  {
    if ks != [] { SumOverKeysEmpty(key, val, ks[..|ks| - 1]); }
  }

  /** Adding one row adds its value once for every listing of its key. */
  lemma {:induction false} SumOverKeysStep<T, K>(xs: seq<T>, x: T, key: T -> K, val: T -> real, ks: seq<K>)
    ensures SumOverKeys(xs + [x], key, val, ks) == SumOverKeys(xs, key, val, ks) + val(x) * Occurrences(ks, key(x))
    decreases |ks|
  {
    if ks != [] {
      var init, last := ks[..|ks| - 1], ks[|ks| - 1];
      SumOverKeysStep(xs, x, key, val, init);
      assert (xs + [x])[..|xs + [x]| - 1] == xs;
      Distribute(val(x), Occurrences(init, key(x)), last == key(x));
    }
  }

  lemma {:induction false} Distribute(v: real, o: real, b: bool)
    ensures v * (o + (if b then 1.0 else 0.0)) == v * o + (if b then v else 0.0)
  {
  }

  /** Summing the groups over a duplicate-free list of keys that covers every
      group gives the total of all rows: grouping loses and invents nothing. */
  lemma {:induction false} GroupsPartitionTotal<T, K>(xs: seq<T>, key: T -> K, val: T -> real, ks: seq<K>)
    requires Distinct(ks)
    requires forall k :: k in KeysOf(xs, key) ==> k in ks
    ensures SumOverKeys(xs, key, val, ks) == Sum(xs, val)
    decreases |xs|
  {
    if xs == [] {
      SumOverKeysEmpty(key, val, ks);
    } else {
      var p, x := xs[..|xs| - 1], xs[|xs| - 1];
      assert xs == p + [x];
      forall k | k in KeysOf(p, key) ensures k in ks {
        var i :| 0 <= i < |p| && key(p[i]) == k;
        assert key(xs[i]) == k;
      }
      GroupsPartitionTotal(p, key, val, ks);
      SumOverKeysStep(p, x, key, val, ks);
      assert key(x) in KeysOf(xs, key);
      OccursOnce(ks, key(x));
    }
  }

  lemma {:induction false} EntriesAreGroupSums<T, K>(xs: seq<T>, key: T -> K, val: T -> real, ks: seq<K>)
    requires forall j :: 0 <= j < |ks| ==> ks[j] in KeysOf(xs, key)
    ensures SumOfEntries(GroupSum(xs, key, val), ks) == SumOverKeys(xs, key, val, ks)
    decreases |ks|
  {
    if ks != [] { EntriesAreGroupSums(xs, key, val, ks[..|ks| - 1]); }
  }

  /** Conservation through the group-by: the entries of the grouped table, each
      counted once, add up to the total of the rows that were grouped. */
  lemma {:induction false} GroupSumConserves<T, K>(xs: seq<T>, key: T -> K, val: T -> real, ks: seq<K>)
    requires Enumerates(ks, KeysOf(xs, key))
    ensures forall j :: 0 <= j < |ks| ==> ks[j] in GroupSum(xs, key, val)
    ensures SumOfEntries(GroupSum(xs, key, val), ks) == Sum(xs, val)
  {
    EntriesAreGroupSums(xs, key, val, ks);
    GroupsPartitionTotal(xs, key, val, ks);
  }

  lemma {:induction false} MapsEqual<K>(g: map<K, real>, m: map<K, real>)
    requires g.Keys == m.Keys
    requires forall k :: k in m ==> g[k] == m[k]
    ensures g == m
  {
  }

  /** `drop_duplicates`: the first occurrence of every element, in order. */
  function Dedup<T(==)>(xs: seq<T>): (r: seq<T>)
    ensures Distinct(r)
    ensures forall x :: x in r ==> x in xs
    ensures forall x :: x in xs ==> x in r
    decreases |xs|
  {
    if xs == [] then []
    else
      var d := Dedup(xs[..|xs| - 1]);
      assert xs == xs[..|xs| - 1] + [xs[|xs| - 1]];
      if xs[|xs| - 1] in d then d else d + [xs[|xs| - 1]]
  }

  /** The groups of a concatenation are the groups of its two parts. */
  lemma {:induction false} KeysOfAppend<T, K>(xs: seq<T>, ys: seq<T>, key: T -> K)
    ensures KeysOf(xs + ys, key) == KeysOf(xs, key) + KeysOf(ys, key)
  {
    var zs := xs + ys;
    forall k | k in KeysOf(zs, key) ensures k in KeysOf(xs, key) + KeysOf(ys, key) {
      var i :| 0 <= i < |zs| && key(zs[i]) == k;
      if i >= |xs| { assert key(ys[i - |xs|]) == k; }
    }
    forall k | k in KeysOf(xs, key) + KeysOf(ys, key) ensures k in KeysOf(zs, key) {
      if k in KeysOf(xs, key) {
        var i :| 0 <= i < |xs| && key(xs[i]) == k;
        assert key(zs[i]) == k;
      } else {
        var i :| 0 <= i < |ys| && key(ys[i]) == k;
        assert key(zs[|xs| + i]) == k;
      }
    }
  }
  /** `drop_duplicates` on the columns `key` picks out: the first element of
      each key, in the order of first appearance. */
  function DedupBy<T, K(==)>(xs: seq<T>, key: T -> K): (r: seq<T>)
    ensures forall i, j :: 0 <= i < j < |r| ==> key(r[i]) != key(r[j])
    ensures forall i :: 0 <= i < |r| ==> r[i] in xs
    ensures KeysOf(r, key) == KeysOf(xs, key)
    decreases |xs|
  {
    if xs == [] then []
    else
      var p, x := xs[..|xs| - 1], xs[|xs| - 1];
      var d := DedupBy(p, key);
      KeysOfAppend(p, [x], key);
      assert xs == p + [x];
      if key(x) in KeysOf(d, key) then
        d
      else
        KeysOfAppend(d, [x], key);
        d + [x]
  }

  /** The element DedupBy keeps for a key is the first element with that key. */
  lemma {:induction false} DedupByKeepsFirst<T, K>(xs: seq<T>, key: T -> K, i: nat)
    requires i < |DedupBy(xs, key)|
    ensures exists j :: 0 <= j < |xs| && xs[j] == DedupBy(xs, key)[i]
                        && forall j' :: 0 <= j' < j ==> key(xs[j']) != key(xs[j])
    decreases |xs|
  {
    var p, x := xs[..|xs| - 1], xs[|xs| - 1];
    var d := DedupBy(p, key);
    if i < |d| {
      DedupByKeepsFirst(p, key, i);
      var j :| 0 <= j < |p| && p[j] == d[i] && forall j' :: 0 <= j' < j ==> key(p[j']) != key(p[j]);
      assert xs[j] == p[j];
      assert forall j' :: 0 <= j' < j ==> xs[j'] == p[j'];
    } else {
      assert DedupBy(xs, key)[i] == x && key(x) !in KeysOf(d, key);
      forall j' | 0 <= j' < |p| ensures key(xs[j']) != key(x) {
        assert xs[j'] == p[j'];
        assert key(p[j']) in KeysOf(p, key);
      }
    }
  }

  /** `pd.concat` of a list of frames. */
  function Flatten<T>(xss: seq<seq<T>>): seq<T>
    decreases |xss|
  {
    if xss == [] then [] else Flatten(xss[..|xss| - 1]) + xss[|xss| - 1]
  }
}
