/** The array idioms the tracker is written with: `find`, `findIndex`,
    `filter`, numeric `reduce`, and the replace-or-append "upsert" that the
    app repeats for day records, food cards, activity cards and chart slots. */
module Lists {
  import opened Wrappers

  /** `xs.findIndex(x => key(x) === k)`; `None` stands for the result -1. */
  function IndexOfKey<T, K(==)>(xs: seq<T>, key: T -> K, k: K): (r: Option<nat>)
    ensures r.None? <==> forall i :: 0 <= i < |xs| ==> key(xs[i]) != k
    ensures r.Some? ==> r.value < |xs| && key(xs[r.value]) == k
    ensures r.Some? ==> forall i :: 0 <= i < r.value ==> key(xs[i]) != k
  {
    if |xs| == 0 then None
    else if key(xs[0]) == k then Some(0)
    else match IndexOfKey(xs[1..], key, k)
      case None => None
      case Some(i) => Some(i + 1)
  }

  /** `xs.find(x => key(x) === k)`: the first element with key `k`, if any. */
  function FindByKey<T, K(==)>(xs: seq<T>, key: T -> K, k: K): (r: Option<T>)
    ensures r.None? <==> forall i :: 0 <= i < |xs| ==> key(xs[i]) != k
    ensures r.Some? ==> r.value in xs && key(r.value) == k
    ensures r.Some? ==> IndexOfKey(xs, key, k).Some? && r.value == xs[IndexOfKey(xs, key, k).value]
  {
    match IndexOfKey(xs, key, k)
    case None => None
    case Some(i) => Some(xs[i])
  }

  /** No two elements share a key. */
  predicate UniqueKeys<T, K(==)>(xs: seq<T>, key: T -> K) {
    forall i, j :: 0 <= i < j < |xs| ==> key(xs[i]) != key(xs[j])
  }

  /** Replace the first element with the same key as `x` by `x`, or append `x`
      when no element has that key. */
  function Upsert<T, K(==)>(xs: seq<T>, x: T, key: T -> K): (r: seq<T>)
    ensures (exists i :: 0 <= i < |xs| && key(xs[i]) == key(x)) ==>
              |r| == |xs| &&
              var i := IndexOfKey(xs, key, key(x)).value;
              r[i] == x && forall j :: 0 <= j < |xs| && j != i ==> r[j] == xs[j]
    ensures (forall i :: 0 <= i < |xs| ==> key(xs[i]) != key(x)) ==> r == xs + [x]
  {
    match IndexOfKey(xs, key, key(x))
    case Some(i) => xs[i := x]
    case None => xs + [x]
  }

  /** `xs.filter(p)`: the elements satisfying `p`, in their original order. */
  function Filter<T>(xs: seq<T>, p: T -> bool): (r: seq<T>)
    ensures |r| <= |xs|
    ensures forall y :: y in r ==> y in xs && p(y)
    ensures forall y :: y in xs && p(y) ==> y in r
  {
    if xs == [] then []
    else Filter(xs[..|xs| - 1], p) + (if p(xs[|xs| - 1]) then [xs[|xs| - 1]] else [])
  }

  /** The predicate `y => key(y) !== k` of the delete-by-id filters. */
  function KeyIsNot<T, K(==)>(key: T -> K, k: K): T -> bool {
    y => key(y) != k
  }

  /** `xs.filter(y => key(y) !== k)`: delete every element with key `k`. */
  function RemoveKey<T, K(==)>(xs: seq<T>, key: T -> K, k: K): (r: seq<T>)
    ensures |r| <= |xs|
    ensures forall i :: 0 <= i < |r| ==> key(r[i]) != k
    ensures forall y :: y in xs && key(y) != k ==> y in r
    ensures forall y :: y in r ==> y in xs
  {
    var r := Filter(xs, KeyIsNot(key, k));
    assert forall i :: 0 <= i < |r| ==> r[i] in r;
    r
  }

  /** `xs.reduce((a, x) => a + w(x), 0)` over integers. */
  function SumOf<T>(xs: seq<T>, w: T -> int): int {
    if xs == [] then 0 else SumOf(xs[..|xs| - 1], w) + w(xs[|xs| - 1])
  }

  /** `xs.reduce((a, x) => a + w(x), 0)` over numbers that need not be whole. */
  function RealSumOf<T>(xs: seq<T>, w: T -> real): real {
    if xs == [] then 0.0 else RealSumOf(xs[..|xs| - 1], w) + w(xs[|xs| - 1])
  }

  /** Filtering commutes with concatenation: the kept elements keep their order. */
  lemma {:induction false} FilterConcat<T>(a: seq<T>, b: seq<T>, p: T -> bool)
    ensures Filter(a + b, p) == Filter(a, p) + Filter(b, p)
  {
    if b != [] {
      var n := |b| - 1;
      assert (a + b)[..|a + b| - 1] == a + b[..n];
      assert (a + b)[|a + b| - 1] == b[n];
      FilterConcat(a, b[..n], p);
    } else {
      assert a + b == a;
    }
  }

  /** A filter that keeps every element is the identity. */
  lemma {:induction false} FilterKeepsAll<T>(xs: seq<T>, p: T -> bool)
    requires forall i :: 0 <= i < |xs| ==> p(xs[i])
    ensures Filter(xs, p) == xs
  {
    if xs != [] {
      var init, last := xs[..|xs| - 1], xs[|xs| - 1];
      assert Filter(xs, p) == Filter(init, p) + [last];
      assert forall i :: 0 <= i < |init| ==> p(init[i]);
      FilterKeepsAll(init, p);
      assert init + [last] == xs;
    }
  }

  /** A sum over a concatenation is the sum of the sums. */
  lemma {:induction false} SumConcat<T>(a: seq<T>, b: seq<T>, w: T -> int)
    ensures SumOf(a + b, w) == SumOf(a, w) + SumOf(b, w)
  {
    if b != [] {
      var n := |b| - 1;
      assert (a + b)[..|a + b| - 1] == a + b[..n];
      assert (a + b)[|a + b| - 1] == b[n];
      SumConcat(a, b[..n], w);
    } else {
      assert a + b == a;
    }
  }

  /** The real-valued counterpart of SumConcat. */
  lemma {:induction false} RealSumConcat<T>(a: seq<T>, b: seq<T>, w: T -> real)
    ensures RealSumOf(a + b, w) == RealSumOf(a, w) + RealSumOf(b, w)
  {
    if b != [] {
      var n := |b| - 1;
      assert (a + b)[..|a + b| - 1] == a + b[..n];
      assert (a + b)[|a + b| - 1] == b[n];
      RealSumConcat(a, b[..n], w);
    } else {
      assert a + b == a;
    }
  }

  /** A sum of non-negative terms is non-negative. */
  lemma {:induction false} RealSumNonNegative<T>(xs: seq<T>, w: T -> real)
    ensures (forall i :: 0 <= i < |xs| ==> w(xs[i]) >= 0.0) ==> RealSumOf(xs, w) >= 0.0
  {
    if xs != [] {
      var init := xs[..|xs| - 1];
      assert forall i :: 0 <= i < |init| ==> init[i] == xs[i];
      RealSumNonNegative(init, w);
    }
  }

  /** A sum whose terms all vanish is 0. */
  lemma {:induction false} SumOfZeros<T>(xs: seq<T>, w: T -> int)
    requires forall i :: 0 <= i < |xs| ==> w(xs[i]) == 0
    ensures SumOf(xs, w) == 0
  {
    if xs != [] {
      SumOfZeros(xs[..|xs| - 1], w);
    }
  }

  /** A sum of non-negative terms is non-negative. */
  lemma {:induction false} SumOfNonNegative<T>(xs: seq<T>, w: T -> int)
    ensures (forall i :: 0 <= i < |xs| ==> w(xs[i]) >= 0) ==> SumOf(xs, w) >= 0
  {
    if xs != [] {
      var init := xs[..|xs| - 1];
      assert forall i :: 0 <= i < |init| ==> init[i] == xs[i];
      SumOfNonNegative(init, w);
    }
  }

  /** The predicate `y => key(y) === k` of the lookup-by-key filters. */
  function KeyIs<T, K(==)>(key: T -> K, k: K): T -> bool {
    y => key(y) == k
  }

  /** Filtering by a key that no element has leaves nothing. */
  lemma FilterNone<T>(xs: seq<T>, p: T -> bool)
    requires forall i :: 0 <= i < |xs| ==> !p(xs[i])
    ensures Filter(xs, p) == []
  {
  }

  /** The first element a filter by key keeps is the element `find` returns. */
  lemma FilterHeadIsFind<T, K>(xs: seq<T>, key: T -> K, k: K)
    ensures FindByKey(xs, key, k).None? ==> Filter(xs, KeyIs(key, k)) == []
    ensures FindByKey(xs, key, k).Some? ==>
              Filter(xs, KeyIs(key, k)) != [] && Filter(xs, KeyIs(key, k))[0] == FindByKey(xs, key, k).value
  {
    var p := KeyIs(key, k);
    match IndexOfKey(xs, key, k)
    case None =>
      FilterNone(xs, p);
    case Some(j) =>
      var before, rest := xs[..j], xs[j + 1..];
      assert xs == before + ([xs[j]] + rest);
      assert forall i :: 0 <= i < |before| ==> !p(before[i]);
      FilterNone(before, p);
      FilterConcat(before, [xs[j]] + rest, p);
      FilterConcat([xs[j]], rest, p);
      assert [xs[j]][..0] == [];
      assert Filter([xs[j]], p) == [xs[j]];
  }

  /** With unique keys, filtering by a key keeps exactly the element `find` returns. */
  lemma {:induction false} FilterUniqueKey<T, K>(xs: seq<T>, key: T -> K, k: K)
    requires UniqueKeys(xs, key)
    ensures FindByKey(xs, key, k).None? ==> Filter(xs, KeyIs(key, k)) == []
    ensures FindByKey(xs, key, k).Some? ==> Filter(xs, KeyIs(key, k)) == [FindByKey(xs, key, k).value]
  {
    FilterHeadIsFind(xs, key, k);
    if xs != [] {
      var n := |xs| - 1;
      var init := xs[..n];
      assert UniqueKeys(init, key);
      FilterUniqueKey(init, key, k);
      FilterHeadIsFind(init, key, k);
      if FindByKey(init, key, k).Some? {
        var j := IndexOfKey(init, key, k).value;
        assert xs[j] == init[j];
        assert key(xs[n]) != k;
      }
    }
  }

  /** A function of prefixes that starts at 0 and grows by `f` of each next
      element is the sum of `f`. */
  lemma {:induction false} SumBySnoc<T>(xs: seq<T>, g: seq<T> -> real, f: T -> real)
    requires g([]) == 0.0
    requires forall i :: 0 <= i < |xs| ==> g(xs[..i + 1]) == g(xs[..i]) + f(xs[i])
    ensures g(xs[..|xs|]) == RealSumOf(xs, f)
  {
    if xs != [] {
      var init := xs[..|xs| - 1];
      forall i | 0 <= i < |init| ensures g(init[..i + 1]) == g(init[..i]) + f(init[i]) {
        assert init[..i + 1] == xs[..i + 1] && init[..i] == xs[..i];
      }
      SumBySnoc(init, g, f);
      assert init[..|init|] == xs[..|xs| - 1];
    }
  }

  /** A prefix sum grows by the next term. */
  lemma RealSumPrefix<T>(xs: seq<T>, n: nat, f: T -> real)
    requires 0 < n <= |xs|
    ensures RealSumOf(xs[..n], f) == RealSumOf(xs[..n - 1], f) + f(xs[n - 1])
  {
    assert xs[..n][..n - 1] == xs[..n - 1];
  }

  lemma RealSumOne<T>(x: T, f: T -> real)
    ensures RealSumOf([x], f) == f(x)
  {
    assert [x][..0] == [];
  }

  /** Filters by two predicates that agree on every element keep the same elements. */
  lemma {:induction false} FilterSame<T>(xs: seq<T>, p: T -> bool, q: T -> bool)
    requires forall i :: 0 <= i < |xs| ==> p(xs[i]) == q(xs[i])
    ensures Filter(xs, p) == Filter(xs, q)
  {
    if xs != [] {
      var init := xs[..|xs| - 1];
      assert forall i :: 0 <= i < |init| ==> init[i] == xs[i];
      FilterSame(init, p, q);
    }
  }

  /** A filter by a conjunction is the second filter applied after the first. */
  lemma {:induction false} FilterBoth<T>(xs: seq<T>, p: T -> bool, q: T -> bool, both: T -> bool)
    requires forall i :: 0 <= i < |xs| ==> both(xs[i]) == (p(xs[i]) && q(xs[i]))
    ensures Filter(xs, both) == Filter(Filter(xs, p), q)
  {
    if xs != [] {
      var init, last := xs[..|xs| - 1], xs[|xs| - 1];
      assert forall i :: 0 <= i < |init| ==> init[i] == xs[i];
      FilterBoth(init, p, q, both);
      var tail := if p(last) then [last] else [];
      FilterConcat(Filter(init, p), tail, q);
      assert [last][..0] == [];
      assert Filter(tail, q) == if p(last) && q(last) then [last] else [];
    }
  }

  /** A real sum whose terms all vanish is 0. */
  lemma {:induction false} RealSumOfZeros<T>(xs: seq<T>, w: T -> real)
    ensures (forall i :: 0 <= i < |xs| ==> w(xs[i]) == 0.0) ==> RealSumOf(xs, w) == 0.0
  {
    if xs != [] {
      var init := xs[..|xs| - 1];
      assert forall i :: 0 <= i < |init| ==> init[i] == xs[i];
      RealSumOfZeros(init, w);
    }
  }

  /** Term-wise smaller weights give a smaller sum. */
  lemma {:induction false} SumOfMonotone<T>(xs: seq<T>, v: T -> int, w: T -> int)
    requires forall i :: 0 <= i < |xs| ==> v(xs[i]) <= w(xs[i])
    ensures SumOf(xs, v) <= SumOf(xs, w)
  {
    if xs != [] {
      SumOfMonotone(xs[..|xs| - 1], v, w);
    }
  }

  /** Sums of two weightings that agree on every element are equal. */
  lemma {:induction false} SumOfPointwise<T>(xs: seq<T>, v: T -> int, w: T -> int)
    requires forall i :: 0 <= i < |xs| ==> v(xs[i]) == w(xs[i])
    ensures SumOf(xs, v) == SumOf(xs, w)
  {
    if xs != [] {
      var init := xs[..|xs| - 1];
      assert forall i :: 0 <= i < |init| ==> init[i] == xs[i];
      SumOfPointwise(init, v, w);
    }
  }

  /** `RealSumOf` of two weightings that agree on every element are equal. */
  lemma {:induction false} RealSumOfPointwise<T>(xs: seq<T>, v: T -> real, w: T -> real)
    requires forall i :: 0 <= i < |xs| ==> v(xs[i]) == w(xs[i])
    ensures RealSumOf(xs, v) == RealSumOf(xs, w)
  {
    if xs != [] {
      var init := xs[..|xs| - 1];
      assert forall i :: 0 <= i < |init| ==> init[i] == xs[i];
      RealSumOfPointwise(init, v, w);
    }
  }

  /** One more element adds its weight to a filtered sum exactly when it passes the filter. */
  lemma SumFilterSnoc<T>(xs: seq<T>, x: T, p: T -> bool, w: T -> int)
    ensures SumOf(Filter(xs + [x], p), w) == SumOf(Filter(xs, p), w) + (if p(x) then w(x) else 0)
  {
    assert (xs + [x])[..|xs + [x]| - 1] == xs;
    var tail := if p(x) then [x] else [];
    assert Filter(xs + [x], p) == Filter(xs, p) + tail;
    SumConcat(Filter(xs, p), tail, w);
    SumOfTriple(x, x, x, w);
  }

  /** Summing a short literal list, for the worked examples. */
  lemma SumOfTriple<T>(x: T, y: T, z: T, w: T -> int)
    ensures SumOf([x], w) == w(x)
    ensures SumOf([x, y], w) == w(x) + w(y)
    ensures SumOf([x, y, z], w) == w(x) + w(y) + w(z)
  {
    assert [x][..0] == [];
    assert SumOf([x], w) == w(x);
    assert [x, y][..1] == [x];
    assert [x, y, z][..2] == [x, y];
  }

  lemma RealSumOfPair<T>(x: T, y: T, w: T -> real)
    ensures RealSumOf([x, y], w) == w(x) + w(y)
  {
    assert [x][..0] == [];
    assert RealSumOf([x], w) == w(x);
    assert [x, y][..1] == [x];
  }

  lemma FilterTriple<T>(x: T, y: T, z: T, p: T -> bool)
    ensures Filter([x, y, z], p) ==
      (if p(x) then [x] else []) + (if p(y) then [y] else []) + (if p(z) then [z] else [])
  {
    assert [x][..0] == [];
    assert Filter([x], p) == (if p(x) then [x] else []);
    assert [x, y][..1] == [x];
    assert Filter([x, y], p) == (if p(x) then [x] else []) + (if p(y) then [y] else []);
    assert [x, y, z][..2] == [x, y];
  }

  /** After an upsert, looking the key up finds exactly the upserted element. */
  lemma UpsertThenFind<T, K>(xs: seq<T>, x: T, key: T -> K)
    ensures FindByKey(Upsert(xs, x, key), key, key(x)) == Some(x)
  {
    var r := Upsert(xs, x, key);
    match IndexOfKey(xs, key, key(x))
    case Some(i) =>
      assert r[i] == x;
      var f := IndexOfKey(r, key, key(x));
      assert f.Some?;
      assert f.value == i;
    case None =>
      assert r == xs + [x];
      assert key(r[|xs|]) == key(x);
      var f := IndexOfKey(r, key, key(x));
      assert f.Some?;
      assert f.value == |xs|;
  }

  /** An upsert leaves the lookup of every other key as it was. */
  lemma UpsertFindOther<T, K>(xs: seq<T>, x: T, key: T -> K, k: K)
    requires k != key(x)
    ensures FindByKey(Upsert(xs, x, key), key, k) == FindByKey(xs, key, k)
  {
    var r := Upsert(xs, x, key);
    assert forall j :: 0 <= j < |xs| && key(xs[j]) == k ==> r[j] == xs[j];
    assert forall j :: 0 <= j < |xs| && key(r[j]) == k ==> r[j] == xs[j];
    var f, g := IndexOfKey(r, key, k), IndexOfKey(xs, key, k);
    if g.Some? {
      assert f.Some?;
      assert f.value == g.value;
    }
  }

  /** Upserting keeps keys unique, so the date, card and chart keys stay keys. */
  lemma UpsertKeepsUnique<T, K>(xs: seq<T>, x: T, key: T -> K)
    requires UniqueKeys(xs, key)
    ensures UniqueKeys(Upsert(xs, x, key), key)
  {
    var r := Upsert(xs, x, key);
    if exists i :: 0 <= i < |xs| && key(xs[i]) == key(x) {
      var i := IndexOfKey(xs, key, key(x)).value;
      assert forall j :: 0 <= j < |r| ==> key(r[j]) == key(xs[j]);
    } else {
      assert r == xs + [x];
    }
  }

  /** Deleting by key keeps keys unique. */
  lemma {:induction false} FilterKeepsUnique<T, K>(xs: seq<T>, p: T -> bool, key: T -> K)
    requires UniqueKeys(xs, key)
    ensures UniqueKeys(Filter(xs, p), key)
  {
    if xs != [] {
      var init, last := xs[..|xs| - 1], xs[|xs| - 1];
      assert UniqueKeys(init, key);
      FilterKeepsUnique(init, p, key);
      var f := Filter(init, p);
      if p(last) {
        assert forall i :: 0 <= i < |f| ==> f[i] in init;
        assert forall i :: 0 <= i < |f| ==> key(f[i]) != key(last);
      }
    }
  }
}
