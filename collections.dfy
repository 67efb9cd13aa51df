/** Order-preserving union of lists, as Ruby's `Array#|`, generalised so that two
    elements count as the same when a key function maps them to the same key. */
module Collections {

  /** The keys of `s`, position by position. */
  function KeysOf<T, K>(s: seq<T>, key: T -> K): seq<K> {
    seq(|s|, i requires 0 <= i < |s| => key(s[i]))
  }

  /** No two elements of `s` share a key. */
  predicate DistinctBy<T, K(==)>(s: seq<T>, key: T -> K) {
    forall i, j :: 0 <= i < j < |s| ==> key(s[i]) != key(s[j])
  }

  /** The first element of `s` for each key, in the order those elements occur. */
  function DedupBy<T, K(==)>(s: seq<T>, key: T -> K): seq<T> {
    if |s| == 0 then []
    else
      var d := DedupBy(s[..|s| - 1], key);
      if key(s[|s| - 1]) in KeysOf(d, key) then d else d + [s[|s| - 1]]
  }

  /** Every element kept by DedupBy comes from `s`, their keys are distinct, and every key
      of `s` is kept. */
  lemma {:induction false} DedupByContents<T, K>(s: seq<T>, key: T -> K)
    ensures DistinctBy(DedupBy(s, key), key)
    ensures forall x :: x in DedupBy(s, key) ==> x in s
    ensures forall i :: 0 <= i < |s| ==> key(s[i]) in KeysOf(DedupBy(s, key), key)
  {
    if |s| > 0 {
      var init := s[..|s| - 1];
      DedupByContents(init, key);
      var d := DedupBy(init, key);
      if key(s[|s| - 1]) !in KeysOf(d, key) {
        forall i | 0 <= i < |d| ensures key(d[i]) != key(s[|s| - 1]) {
          assert KeysOf(d, key)[i] == key(d[i]);
        }
      }
      forall i | 0 <= i < |s|
        ensures key(s[i]) in KeysOf(DedupBy(s, key), key)
      {
        if i < |s| - 1 {
          assert s[i] == init[i];
          var j :| 0 <= j < |d| && KeysOf(d, key)[j] == key(s[i]);
          assert KeysOf(DedupBy(s, key), key)[j] == key(s[i]);
        } else if key(s[i]) !in KeysOf(d, key) {
          assert KeysOf(DedupBy(s, key), key)[|d|] == key(s[i]);
        }
      }
    }
  }

  /** A list whose keys are already distinct is left as it is. */
  lemma {:induction false} DedupByOfDistinct<T, K>(s: seq<T>, key: T -> K)
    requires DistinctBy(s, key)
    ensures DedupBy(s, key) == s
  {
    if |s| > 0 {
      var init := s[..|s| - 1];
      DedupByOfDistinct(init, key);
      assert key(s[|s| - 1]) !in KeysOf(init, key) by {
        forall j | 0 <= j < |init| ensures KeysOf(init, key)[j] != key(s[|s| - 1]) {
          assert init[j] == s[j];
        }
      }
      assert init + [s[|s| - 1]] == s;
    }
  }

  /** The union of a duplicate-free `xs` with `ys` starts with `xs`; what follows are
      elements of `ys` whose keys `xs` does not have, one per key. */
  lemma {:induction false} DedupByKeepsPrefix<T, K>(xs: seq<T>, ys: seq<T>, key: T -> K)
    requires DistinctBy(xs, key)
    ensures var r := DedupBy(xs + ys, key);
      && |xs| <= |r| && r[..|xs|] == xs
      && (forall i :: |xs| <= i < |r| ==> r[i] in ys && key(r[i]) !in KeysOf(xs, key))
  {
    var r := DedupBy(xs + ys, key);
    if |ys| == 0 {
      assert xs + ys == xs;
      DedupByOfDistinct(xs, key);
    } else {
      var init := ys[..|ys| - 1];
      assert (xs + ys)[..|xs + ys| - 1] == xs + init;
      DedupByKeepsPrefix(xs, init, key);
      var d := DedupBy(xs + init, key);
      assert d[..|xs|] == xs;
      DedupByContents(xs + ys, key);
      forall i | |xs| <= i < |r|
        ensures r[i] in ys && key(r[i]) !in KeysOf(xs, key)
      {
        if i < |d| {
          assert r[i] == d[i];
          assert r[i] in init;
        } else {
          assert r[i] == ys[|ys| - 1];
        }
        forall j | 0 <= j < |xs| ensures KeysOf(xs, key)[j] != key(r[i]) {
          assert r[j] == xs[j];
        }
      }
    }
  }

  /** Appending elements whose keys are all present already changes nothing. */
  lemma {:induction false} DedupByAbsorbs<T, K>(p: seq<T>, q: seq<T>, key: T -> K)
    requires DistinctBy(p, key)
    requires forall i :: 0 <= i < |q| ==> key(q[i]) in KeysOf(p, key)
    ensures DedupBy(p + q, key) == p
  {
    if |q| == 0 {
      assert p + q == p;
      DedupByOfDistinct(p, key);
    } else {
      var init := q[..|q| - 1];
      assert (p + q)[..|p + q| - 1] == p + init;
      DedupByAbsorbs(p, init, key);
    }
  }

  /** Merging a prefix of a duplicate-free list with the whole list yields the list. */
  lemma {:induction false} DedupByPrefixUnion<T, K>(ys: seq<T>, n: nat, key: T -> K)
    requires n <= |ys| && DistinctBy(ys, key)
    ensures DedupBy(ys[..n] + ys, key) == ys
  {
    ExtendPrefixUnion(ys, n, |ys|, key);
    assert ys[..|ys|] == ys;
  }

  lemma {:induction false} ExtendPrefixUnion<T, K>(ys: seq<T>, n: nat, k: nat, key: T -> K)
    requires n <= k <= |ys| && DistinctBy(ys, key)
    ensures DedupBy(ys[..n] + ys[..k], key) == ys[..k]
    decreases k
  {
    if k == n {
      assert DistinctBy(ys[..n], key);
      forall i | 0 <= i < n ensures key(ys[..n][i]) in KeysOf(ys[..n], key) {
        assert KeysOf(ys[..n], key)[i] == key(ys[..n][i]);
      }
      DedupByAbsorbs(ys[..n], ys[..n], key);
    } else {
      ExtendPrefixUnion(ys, n, k - 1, key);
      var s := ys[..n] + ys[..k];
      assert s[..|s| - 1] == ys[..n] + ys[..k - 1];
      assert s[|s| - 1] == ys[k - 1];
      var pre := ys[..k - 1];
      assert key(ys[k - 1]) !in KeysOf(pre, key) by {
        forall j | 0 <= j < |pre| ensures KeysOf(pre, key)[j] != key(ys[k - 1]) {
          assert pre[j] == ys[j];
        }
      }
      assert ys[..k - 1] + [ys[k - 1]] == ys[..k];
    }
  }

  /** The keys of a concatenation are the keys of its parts. */
  lemma KeysOfAppend<T, K>(xs: seq<T>, ys: seq<T>, key: T -> K)
    ensures KeysOf(xs + ys, key) == KeysOf(xs, key) + KeysOf(ys, key)
  {
  }

  /** The elements of `ys` whose keys `xs` does not have, in the order of `ys`. */
  function Fresh<T, K(==)>(xs: seq<T>, ys: seq<T>, key: T -> K): (r: seq<T>)
    ensures forall i :: 0 <= i < |r| ==> r[i] in ys && key(r[i]) !in KeysOf(xs, key)
    ensures forall i :: 0 <= i < |ys| && key(ys[i]) !in KeysOf(xs, key) ==> ys[i] in r
    ensures DistinctBy(ys, key) ==> DistinctBy(r, key)
  {
    if |ys| == 0 then []
    else
      var init, y := ys[..|ys| - 1], ys[|ys| - 1];
      var f := Fresh(xs, init, key);
      assert forall i :: 0 <= i < |init| ==> init[i] == ys[i];
      if key(y) in KeysOf(xs, key) then f
      else
        assert DistinctBy(ys, key) ==> forall i :: 0 <= i < |f| ==> key(f[i]) != key(y);
        f + [y]
  }

  /** `Fresh` filters piecewise, so it keeps the order of `ys`: with `FreshOfOne`, each
      element of `ys` contributes itself or nothing, in turn. */
  lemma {:induction false} FreshAppend<T, K>(xs: seq<T>, a: seq<T>, b: seq<T>, key: T -> K)
    ensures Fresh(xs, a + b, key) == Fresh(xs, a, key) + Fresh(xs, b, key)
    decreases |b|
  {
    if |b| == 0 {
      assert a + b == a;
    } else {
      var init, y := b[..|b| - 1], b[|b| - 1];
      assert (a + b)[..|a + b| - 1] == a + init;
      FreshAppend(xs, a, init, key);
    }
  }

  lemma FreshOfOne<T, K>(xs: seq<T>, y: T, key: T -> K)
    ensures Fresh(xs, [y], key) == if key(y) in KeysOf(xs, key) then [] else [y]
  {
    assert [y][..0] == [];
  }

  /** The first element of each key wins: the union of a duplicate-free `xs` with `ys` is
      `xs` followed by the deduplicated elements of `ys` whose keys `xs` lacks. */
  lemma {:induction false} DedupByAppend<T, K>(xs: seq<T>, ys: seq<T>, key: T -> K)
    requires DistinctBy(xs, key)
    ensures DedupBy(xs + ys, key) == xs + DedupBy(Fresh(xs, ys, key), key)
  {
    if |ys| == 0 {
      assert xs + ys == xs;
      DedupByOfDistinct(xs, key);
    } else {
      var init, y := ys[..|ys| - 1], ys[|ys| - 1];
      assert (xs + ys)[..|xs + ys| - 1] == xs + init;
      DedupByAppend(xs, init, key);
      var f := Fresh(xs, init, key);
      var e := DedupBy(f, key);
      KeysOfAppend(xs, e, key);
      if key(y) !in KeysOf(xs, key) {
        assert (f + [y])[..|f + [y]| - 1] == f;
        assert (xs + e) + [y] == xs + (e + [y]);
      }
    }
  }

  /** What DedupBy keeps is, in order, the first element of `s` with each key: position
      `k` of the result is `s[idx[k]]`, no earlier element of `s` has its key, and the
      positions increase. */
  lemma {:induction false} DedupByFirsts<T, K>(s: seq<T>, key: T -> K) returns (idx: seq<nat>)
    ensures var d := DedupBy(s, key);
      && |idx| == |d|
      && (forall k :: 0 <= k < |idx| ==> idx[k] < |s| && s[idx[k]] == d[k])
      && (forall k, j :: 0 <= k < |idx| && 0 <= j < idx[k] ==> key(s[j]) != key(d[k]))
      && (forall k, l :: 0 <= k < l < |idx| ==> idx[k] < idx[l])
  {
    if |s| == 0 {
      idx := [];
    } else {
      var init, last := s[..|s| - 1], s[|s| - 1];
      var prev := DedupByFirsts(init, key);
      var d := DedupBy(init, key);
      assert forall j :: 0 <= j < |init| ==> s[j] == init[j];
      if key(last) in KeysOf(d, key) {
        assert DedupBy(s, key) == d;
        idx := prev;
      } else {
        var r := DedupBy(s, key);
        assert r == d + [last];
        DedupByContents(init, key);
        forall j | 0 <= j < |init| ensures key(s[j]) != key(last) {
          assert key(init[j]) in KeysOf(d, key);
        }
        idx := prev + [|s| - 1];
        forall k | 0 <= k < |idx| ensures idx[k] < |s| && s[idx[k]] == r[k] {
          if k < |prev| {
            assert idx[k] == prev[k] && r[k] == d[k];
          }
        }
        forall k, j | 0 <= k < |idx| && 0 <= j < idx[k] ensures key(s[j]) != key(r[k]) {
          if k < |prev| {
            assert idx[k] == prev[k] && r[k] == d[k];
          }
        }
      }
    }
  }

  /** Exchanging two elements keeps the multiset of elements. */
  lemma SwapKeepsMultiset<T>(s: seq<T>, i: nat, j: nat)
    requires i < |s| && j < |s|
    ensures multiset(s[i := s[j]][j := s[i]]) == multiset(s)
  {
    var t := s[i := s[j]];
    assert multiset(t) == multiset(s) - multiset{s[i]} + multiset{s[j]};
    if i != j {
      assert t[j] == s[j];
    }
    assert multiset(t[j := s[i]]) == multiset(t) - multiset{t[j]} + multiset{s[i]};
  }
}
