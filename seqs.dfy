/**
 * Sequence and counter helpers shared by the pipeline: flattening, Python's
 * stable `sort(key=..., reverse=True)`, and counters built with
 * `d[k] = d.get(k, 0) + 1`.
 */
module Seqs {

  /** Concatenation is associative; stated once so that callers need not rediscover it. */
  lemma AppendAssoc<T>(a: seq<T>, b: seq<T>, c: seq<T>)
    ensures a + b + c == a + (b + c)
  {
  }

  /** The concatenation of a list of lists, in order. */
  function Flatten<T>(bs: seq<seq<T>>): seq<T>
    decreases |bs|
  {
    if bs == [] then [] else Flatten(bs[..|bs| - 1]) + bs[|bs| - 1]
  }

  lemma {:induction false} FlattenSnoc<T>(bs: seq<seq<T>>, b: seq<T>)
    ensures Flatten(bs + [b]) == Flatten(bs) + b
  {
    assert (bs + [b])[..|bs|] == bs;
  }

  // ---------------------------------------------------------------------
  // Stable sort, descending by a real key
  // ---------------------------------------------------------------------

  predicate SortedDescBy<T>(s: seq<T>, key: T -> real) {
    forall i, j :: 0 <= i < j < |s| ==> key(s[i]) >= key(s[j])
  }

  /** Inserts `x` after every element whose key is at least `key(x)`. */
  function InsertDesc<T>(x: T, s: seq<T>, key: T -> real): (r: seq<T>)
    ensures |r| == |s| + 1
    decreases |s|
  {
    if s == [] then [x]
    else if key(s[0]) >= key(x) then [s[0]] + InsertDesc(x, s[1..], key)
    else [x] + s
  }

  /** Inserting adds `x` and nothing else. */
  lemma {:induction false} InsertDescPermutes<T>(x: T, s: seq<T>, key: T -> real)
    ensures multiset(InsertDesc(x, s, key)) == multiset(s) + multiset{x}
    decreases |s|
  {
    if s != [] && key(s[0]) >= key(x) {
      assert s == [s[0]] + s[1..];
      InsertDescPermutes(x, s[1..], key);
    }
  }

  lemma {:induction false} InsertDescBound<T>(x: T, s: seq<T>, key: T -> real, v: real)
    requires forall i :: 0 <= i < |s| ==> key(s[i]) <= v
    requires key(x) <= v
    ensures forall i :: 0 <= i < |s| + 1 ==> key(InsertDesc(x, s, key)[i]) <= v
    decreases |s|
  {
    if s != [] && key(s[0]) >= key(x) {
      InsertDescBound(x, s[1..], key, v);
    }
  }

  lemma {:induction false} InsertDescSorted<T>(x: T, s: seq<T>, key: T -> real)
    requires SortedDescBy(s, key)
    ensures SortedDescBy(InsertDesc(x, s, key), key)
    decreases |s|
  {
    if s != [] && key(s[0]) >= key(x) {
      var rest := s[1..];
      var t := InsertDesc(x, rest, key);
      SortedDescTail(s, key);
      InsertDescSorted(x, rest, key);
      forall i | 0 <= i < |rest| ensures key(rest[i]) <= key(s[0]) {
        assert rest[i] == s[i + 1];
      }
      InsertDescBound(x, rest, key, key(s[0]));
      var r := [s[0]] + t;
      assert InsertDesc(x, s, key) == r;
      forall i, j | 0 <= i < j < |r| ensures key(r[i]) >= key(r[j]) {
        assert r[j] == t[j - 1];
        if i > 0 {
          assert r[i] == t[i - 1];
        }
      }
    }
  }

  /**
   * Python's `s.sort(key=key, reverse=True)`: elements with equal keys keep
   * their original relative order.
   */
  function SortDesc<T>(s: seq<T>, key: T -> real): (r: seq<T>)
    ensures |r| == |s|
    decreases |s|
  {
    if s == [] then [] else InsertDesc(s[|s| - 1], SortDesc(s[..|s| - 1], key), key)
  }

  /** Sorting only reorders: the result is a permutation of the input. */
  lemma {:induction false} SortDescPermutes<T>(s: seq<T>, key: T -> real)
    ensures multiset(SortDesc(s, key)) == multiset(s)
    decreases |s|
  {
    if s != [] {
      var p, x := s[..|s| - 1], s[|s| - 1];
      assert s == p + [x];
      SortDescPermutes(p, key);
      InsertDescPermutes(x, SortDesc(p, key), key);
    }
  }

  /** The sorted list is ordered by key, non-increasing. */
  lemma {:induction false} SortDescSorted<T>(s: seq<T>, key: T -> real)
    ensures SortedDescBy(SortDesc(s, key), key)
    decreases |s|
  {
    if s != [] {
      SortDescSorted(s[..|s| - 1], key);
      InsertDescSorted(s[|s| - 1], SortDesc(s[..|s| - 1], key), key);
    }
  }

  /** The elements of `s` whose key is `k`, in order. */
  function WithKey<T>(s: seq<T>, key: T -> real, k: real): seq<T>
    decreases |s|
  {
    if s == [] then [] else (if key(s[0]) == k then [s[0]] else []) + WithKey(s[1..], key, k)
  }

  lemma {:induction false} WithKeyAppend<T>(a: seq<T>, b: seq<T>, key: T -> real, k: real)
    ensures WithKey(a + b, key, k) == WithKey(a, key, k) + WithKey(b, key, k)
    decreases |a|
  {
    if a == [] {
      assert a + b == b;
    } else {
      assert (a + b)[0] == a[0];
      assert (a + b)[1..] == a[1..] + b;
      WithKeyAppend(a[1..], b, key, k);
      AppendAssoc(if key(a[0]) == k then [a[0]] else [], WithKey(a[1..], key, k), WithKey(b, key, k));
    }
  }

  lemma {:induction false} WithKeySnoc<T>(p: seq<T>, x: T, key: T -> real, k: real)
    ensures WithKey(p + [x], key, k) == WithKey(p, key, k) + (if key(x) == k then [x] else [])
  {
    WithKeyAppend(p, [x], key, k);
    assert [x][1..] == [];
  }

  lemma {:induction false} WithKeyNone<T>(s: seq<T>, key: T -> real, k: real)
    requires forall i :: 0 <= i < |s| ==> key(s[i]) < k
    ensures WithKey(s, key, k) == []
    decreases |s|
  {
    if s != [] {
      WithKeyNone(s[1..], key, k);
    }
  }

  lemma {:induction false} WithKeyCons<T>(y: T, t: seq<T>, key: T -> real, k: real)
    ensures WithKey([y] + t, key, k) == (if key(y) == k then [y] else []) + WithKey(t, key, k)
  {
    assert ([y] + t)[1..] == t;
  }

  lemma {:induction false} SortedDescTail<T>(s: seq<T>, key: T -> real)
    requires SortedDescBy(s, key) && s != []
    ensures SortedDescBy(s[1..], key)
  {
    var rest := s[1..];
    forall i, j | 0 <= i < j < |rest| ensures key(rest[i]) >= key(rest[j]) {
      assert rest[i] == s[i + 1] && rest[j] == s[j + 1];
    }
  }

  lemma {:induction false} InsertDescWithKey<T>(x: T, s: seq<T>, key: T -> real, k: real)
    requires SortedDescBy(s, key)
    ensures WithKey(InsertDesc(x, s, key), key, k)
         == WithKey(s, key, k) + (if key(x) == k then [x] else [])
    decreases |s|
  {
    if s == [] {
    } else if key(s[0]) >= key(x) {
      var rest := s[1..];
      SortedDescTail(s, key);
      InsertDescWithKey(x, rest, key, k);
      var t := InsertDesc(x, rest, key);
      assert InsertDesc(x, s, key) == [s[0]] + t;
      WithKeyCons(s[0], t, key, k);
      assert s == [s[0]] + rest;
      WithKeyCons(s[0], rest, key, k);
      var c := if key(s[0]) == k then [s[0]] else [];
      var a := WithKey(rest, key, k);
      var e := if key(x) == k then [x] else [];
      AppendAssoc(c, a, e);
    } else {
      InsertDescFrontWithKey(x, s, key, k);
    }
  }

  /** `x` goes in front of a sorted list whose first key is below its own. */
  lemma {:induction false} InsertDescFrontWithKey<T>(x: T, s: seq<T>, key: T -> real, k: real)
    requires SortedDescBy(s, key) && s != [] && key(s[0]) < key(x)
    ensures WithKey(InsertDesc(x, s, key), key, k)
         == WithKey(s, key, k) + (if key(x) == k then [x] else [])
  {
    assert InsertDesc(x, s, key) == [x] + s;
    assert ([x] + s)[1..] == s;
    if key(x) == k {
      assert forall i :: 0 <= i < |s| ==> key(s[i]) < k by {
        forall i | 0 <= i < |s| ensures key(s[i]) < k {
          if i > 0 {
            assert key(s[0]) >= key(s[i]);
          }
        }
      }
      WithKeyNone(s, key, k);
    }
  }

  /**
   * Stability: for every key value, the elements carrying it appear in the
   * sorted list in the same order as in the input.
   */
  lemma {:induction false} SortDescStable<T>(s: seq<T>, key: T -> real, k: real)
    ensures WithKey(SortDesc(s, key), key, k) == WithKey(s, key, k)
    decreases |s|
  {
    if s != [] {
      var p, x := s[..|s| - 1], s[|s| - 1];
      var sp := SortDesc(p, key);
      var tail := if key(x) == k then [x] else [];
      assert SortDesc(s, key) == InsertDesc(x, sp, key);
      SortDescStable(p, key, k);
      SortDescSorted(p, key);
      InsertDescWithKey(x, sp, key, k);
      assert WithKey(SortDesc(s, key), key, k) == WithKey(p, key, k) + tail;
      WithKeySnoc(p, x, key, k);
      assert s == p + [x];
    }
  }

  // ---------------------------------------------------------------------
  // Python's list slicing `s[:n]`
  // ---------------------------------------------------------------------

  /** `s[:n]`, where a negative `n` counts from the end. */
  function SliceTo<T>(s: seq<T>, n: int): (r: seq<T>)
    ensures 0 <= n ==> r == s[..if n < |s| then n else |s|]
    ensures n < 0 ==> r == s[..if |s| + n < 0 then 0 else |s| + n]
  {
    if 0 <= n then s[..if n < |s| then n else |s|]
    else s[..if |s| + n < 0 then 0 else |s| + n]
  }

  // ---------------------------------------------------------------------
  // Counters
  // ---------------------------------------------------------------------

  /** `d[k] = d.get(k, 0) + 1`. */
  function Bump<K>(m: map<K, nat>, k: K): map<K, nat> {
    m[k := (if k in m then m[k] else 0) + 1]
  }

  /** The counter a loop of `Bump`s over `xs` builds, from an empty dict. */
  function Tally<K>(xs: seq<K>): (m: map<K, nat>)
    ensures forall x :: x in xs ==> x in m
    ensures forall k :: k in m ==> k in xs && m[k] == multiset(xs)[k] && m[k] >= 1
    decreases |xs|
  {
    if xs == [] then map[]
    else
      var p := xs[..|xs| - 1];
      assert xs == p + [xs[|xs| - 1]];
      Bump(Tally(p), xs[|xs| - 1])
  }

  lemma {:induction false} TallySnoc<K>(xs: seq<K>, x: K)
    ensures Tally(xs + [x]) == Bump(Tally(xs), x)
  {
    assert (xs + [x])[..|xs|] == xs;
  }

  ghost function Pick<K>(m: map<K, nat>): K
    requires m != map[]
  {
    var k :| k in m; k
  }

  /** The sum of a counter's values. */
  ghost function SumValues<K>(m: map<K, nat>): nat
    decreases |m|
  {
    if m == map[] then 0
    else
      var k := Pick(m);
      assert (m - {k}).Keys == m.Keys - {k};
      m[k] + SumValues(m - {k})
  }

  lemma {:induction false} SumValuesRemove<K>(m: map<K, nat>, k: K)
    requires k in m
    ensures SumValues(m) == m[k] + SumValues(m - {k})
    decreases |m|
  {
    var j := Pick(m);
    if j != k {
      assert (m - {j}).Keys == m.Keys - {j};
      assert (m - {k}).Keys == m.Keys - {k};
      SumValuesRemove(m - {j}, k);
      SumValuesRemove(m - {k}, j);
      assert m - {j} - {k} == m - {k} - {j};
    }
  }

  /** `xs` with every occurrence of `k` removed. */
  function Without<K(==)>(xs: seq<K>, k: K): seq<K>
    decreases |xs|
  {
    if xs == [] then [] else (if xs[0] == k then [] else [xs[0]]) + Without(xs[1..], k)
  }

  lemma {:induction false} WithoutCounts<K>(xs: seq<K>, k: K)
    ensures |xs| == |Without(xs, k)| + multiset(xs)[k]
    ensures forall j :: j != k ==> multiset(Without(xs, k))[j] == multiset(xs)[j]
    ensures forall x :: x in Without(xs, k) ==> x in xs && x != k
    decreases |xs|
  {
    if xs != [] {
      WithoutCounts(xs[1..], k);
      assert xs == [xs[0]] + xs[1..];
    }
  }

  /**
   * A counter whose every value is the number of occurrences of its key in
   * `xs`, and which has a key for every element of `xs`, sums to `|xs|`.
   */
  lemma {:induction false} SumOfCounts<K>(m: map<K, nat>, xs: seq<K>)
    requires forall k :: k in m ==> m[k] == multiset(xs)[k]
    requires forall x :: x in xs ==> x in m
    ensures SumValues(m) == |xs|
    decreases |m|
  {
    if m == map[] {
      if xs != [] {
        assert false;
      }
    } else {
      var k := Pick(m);
      SumValuesRemove(m, k);
      WithoutCounts(xs, k);
      var m', ys := m - {k}, Without(xs, k);
      assert m'.Keys == m.Keys - {k};
      forall x | x in ys ensures x in m' {
        assert x in xs && x != k;
      }
      SumOfCounts(m', ys);
    }
  }

  /** A counter's values sum to the number of increments. */
  lemma {:induction false} TallySum<K>(xs: seq<K>)
    ensures SumValues(Tally(xs)) == |xs|
  {
    SumOfCounts(Tally(xs), xs);
  }

  /** Replacing one value of a counter changes its sum by the difference. */
  lemma {:induction false} SumValuesUpdate<K>(m: map<K, nat>, k: K, v: nat)
    ensures SumValues(m[k := v]) + (if k in m then m[k] else 0) == SumValues(m) + v
  {
    var m' := m[k := v];
    SumValuesRemove(m', k);
    assert m' - {k} == m - {k};
    if k in m {
      SumValuesRemove(m, k);
    } else {
      assert m - {k} == m;
    }
  }

  /** An increment adds one to a counter's sum. */
  lemma {:induction false} SumValuesBump<K>(m: map<K, nat>, k: K)
    ensures SumValues(Bump(m, k)) == SumValues(m) + 1
  {
    SumValuesUpdate(m, k, (if k in m then m[k] else 0) + 1);
  }

  // ---------------------------------------------------------------------
  // Dictionary insertion order
  // ---------------------------------------------------------------------

  /** No element occurs twice. */
  predicate Distinct<T(==)>(s: seq<T>) {
    forall i, j :: 0 <= i < j < |s| ==> s[i] != s[j]
  }

  /**
   * The keys a dict holds after inserting `xs` one by one, in its
   * iteration order: each key once, where it first appears.
   */
  function FirstSeen<K(==)>(xs: seq<K>): (r: seq<K>)
    ensures forall k :: k in r ==> k in xs
    ensures forall k :: k in xs ==> k in r
    ensures Distinct(r)
    decreases |xs|
  {
    if xs == [] then []
    else
      var p, x := xs[..|xs| - 1], xs[|xs| - 1];
      assert xs == p + [x];
      if x in FirstSeen(p) then FirstSeen(p) else FirstSeen(p) + [x]
  }

  /** Inserting one more key appends it exactly when it is new. */
  lemma {:induction false} FirstSeenSnoc<K>(xs: seq<K>, x: K)
    ensures FirstSeen(xs + [x]) == if x in xs then FirstSeen(xs) else FirstSeen(xs) + [x]
  {
    assert (xs + [x])[..|xs|] == xs;
  }

  /** A key listed before another first appears before every occurrence of the other. */
  lemma {:induction false} FirstSeenOrder<K>(xs: seq<K>)
    ensures forall i, j, m :: 0 <= i < j < |FirstSeen(xs)| && 0 <= m < |xs| && xs[m] == FirstSeen(xs)[j] ==>
              FirstSeen(xs)[i] in xs[..m]
    decreases |xs|
  {
    if xs != [] {
      var p, x := xs[..|xs| - 1], xs[|xs| - 1];
      var fp, r := FirstSeen(p), FirstSeen(xs);
      FirstSeenOrder(p);
      forall i, j, m | 0 <= i < j < |r| && 0 <= m < |xs| && xs[m] == r[j] ensures r[i] in xs[..m] {
        assert r[i] == fp[i];
        if m < |p| {
          assert xs[m] == p[m] && xs[..m] == p[..m];
          assert p[m] in p;
          assert r[j] == fp[j];
        } else {
          assert xs[..m] == p;
          assert fp[i] in fp;
        }
      }
    }
  }

  /** An element occurs at most once in a sequence without repeats. */
  lemma {:induction false} DistinctOnce<T>(s: seq<T>, x: T)
    requires Distinct(s)
    ensures multiset(s)[x] <= 1
    decreases |s|
  {
    if s != [] {
      var p, y := s[..|s| - 1], s[|s| - 1];
      assert s == p + [y];
      DistinctOnce(p, x);
      if x == y {
        assert x !in p;
      }
    }
  }

  /** A reordering of a sequence without repeats has none either. */
  lemma {:induction false} DistinctPermutation<T>(a: seq<T>, b: seq<T>)
    requires Distinct(a) && multiset(a) == multiset(b)
    ensures Distinct(b)
  {
    forall i, j | 0 <= i < j < |b| ensures b[i] != b[j] {
      if b[i] == b[j] {
        var x := b[i];
        assert b == b[..j] + b[j..];
        assert b[..j][i] == x && b[j..][0] == x;
        assert multiset(b)[x] == multiset(b[..j])[x] + multiset(b[j..])[x];
        DistinctOnce(a, x);
        assert false;
      }
    }
  }
}
