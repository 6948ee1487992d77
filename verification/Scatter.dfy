/**
 Distributing items into runs by a small key, the idea behind both `embed_unique`'s second
 pass and `sort_indices_by_len`: `Bucket` is one key's items in order, `Start` is where its
 run begins, and an array holding every bucket at its start is the stable sort by key.
 */
module Scatter {
  import opened Common

  /** How often a number occurs in a list. */
  function Occurs(s: seq<nat>, x: nat): nat {
    multiset(s)[x]
  }

  /** Every number of `from..to` exactly once, and no other. */
  ghost predicate OnceEach(s: seq<nat>, from: nat, to: nat) {
    forall x: nat {:trigger Occurs(s, x)} :: Occurs(s, x) == if from <= x < to then 1 else 0
  }

  lemma OnceJoin(a: seq<nat>, b: seq<nat>, from: nat, mid: nat, to: nat)
    requires from <= mid <= to && OnceEach(a, from, mid) && OnceEach(b, mid, to)
    ensures OnceEach(a + b, from, to)
  {
    forall x: nat {:trigger Occurs(a + b, x)}
      ensures Occurs(a + b, x) == if from <= x < to then 1 else 0
    {
      JoinCount(a, b, x);
      assert Occurs(a, x) == if from <= x < mid then 1 else 0;
      assert Occurs(b, x) == if mid <= x < to then 1 else 0;
    }
  }

  lemma OncePermuted(a: seq<nat>, b: seq<nat>, from: nat, to: nat)
    requires OnceEach(a, from, to) && multiset(a) == multiset(b)
    ensures OnceEach(b, from, to)
  {
    forall x: nat {:trigger Occurs(b, x)}
      ensures Occurs(b, x) == if from <= x < to then 1 else 0
    {
      assert Occurs(a, x) == if from <= x < to then 1 else 0;
    }
  }

  lemma OnceIn(s: seq<nat>, from: nat, to: nat, i: nat)
    requires OnceEach(s, from, to) && i < |s|
    ensures from <= s[i] < to
  {
    assert s[i] in multiset(s);
    assert Occurs(s, s[i]) > 0;
  }

  lemma EveryItem(s: seq<nat>, from: nat, to: nat, x: nat) returns (p: nat)
    requires OnceEach(s, from, to) && from <= x < to
    ensures p < |s| && s[p] == x
  {
    assert Occurs(s, x) == 1;
    assert x in multiset(s);
    p :| p < |s| && s[p] == x;
  }

  /** The items below `u` whose key is `k`, in order. */
  function Bucket(keys: seq<nat>, u: nat, k: nat): seq<nat>
    requires u <= |keys|
  {
    if u == 0 then []
    else Bucket(keys, u - 1, k) + if keys[u - 1] == k then [u - 1] else []
  }

  lemma {:induction false} BucketItem(keys: seq<nat>, u: nat, k: nat, j: nat)
    requires u <= |keys| && j < |Bucket(keys, u, k)|
    ensures Bucket(keys, u, k)[j] < u && keys[Bucket(keys, u, k)[j]] == k
  {
    if j < |Bucket(keys, u - 1, k)| {
      BucketItem(keys, u - 1, k, j);
    }
  }

  /** How many items have a key below `k`. */
  function Start(keys: seq<nat>, k: nat): nat {
    if k == 0 then 0 else Start(keys, k - 1) + |Bucket(keys, |keys|, k - 1)|
  }

  /** Bucket `k`, as far as the first `u` items fill it, lies at its start. */
  ghost predicate Placed(at: seq<nat>, keys: seq<nat>, u: nat, k: nat)
    requires u <= |keys|
  {
    && Start(keys, k) + |Bucket(keys, u, k)| <= |at|
    && at[Start(keys, k)..Start(keys, k) + |Bucket(keys, u, k)|] == Bucket(keys, u, k)
  }

  ghost predicate AllPlaced(at: seq<nat>, keys: seq<nat>, u: nat, m: nat)
    requires u <= |keys|
  {
    forall k {:trigger Placed(at, keys, u, k)} :: 0 <= k < m ==> Placed(at, keys, u, k)
  }

  ghost predicate KeysBelow(keys: seq<nat>, m: nat) {
    forall i :: 0 <= i < |keys| ==> keys[i] < m
  }

  lemma {:induction false} BucketGrows(keys: seq<nat>, u: nat, n: nat, k: nat)
    requires u <= n <= |keys|
    ensures |Bucket(keys, u, k)| <= |Bucket(keys, n, k)|
    ensures u < n && keys[u] == k ==> |Bucket(keys, u, k)| < |Bucket(keys, n, k)|
  {
    if u < n {
      BucketGrows(keys, u, n - 1, k);
    }
  }

  lemma {:induction false} StartGrows(keys: seq<nat>, k: nat, k': nat)
    requires k <= k'
    ensures Start(keys, k) <= Start(keys, k')
    ensures k < k' ==> Start(keys, k) + |Bucket(keys, |keys|, k)| <= Start(keys, k')
  {
    if k < k' {
      StartGrows(keys, k, k' - 1);
    }
  }

  /** Every item is in one bucket, so the buckets fill the array exactly. */
  lemma {:induction false} BucketsTile(keys: seq<nat>, u: nat, m: nat)
    requires KeysBelow(keys, m) && u <= |keys|
    ensures Total(keys, u, m) == u
  {
    if u == 0 {
      NoItems(keys, m);
    } else {
      BucketsTile(keys, u - 1, m);
      OneMore(keys, u, m);
    }
  }

  function Total(keys: seq<nat>, u: nat, m: nat): nat
    requires u <= |keys|
  {
    if m == 0 then 0 else Total(keys, u, m - 1) + |Bucket(keys, u, m - 1)|
  }

  lemma {:induction false} NoItems(keys: seq<nat>, m: nat)
    ensures Total(keys, 0, m) == 0
  {
    if m > 0 {
      NoItems(keys, m - 1);
    }
  }

  lemma {:induction false} OneMore(keys: seq<nat>, u: nat, m: nat)
    requires 0 < u <= |keys|
    ensures Total(keys, u, m) == Total(keys, u - 1, m) + if keys[u - 1] < m then 1 else 0
  {
    if m > 0 {
      OneMore(keys, u, m - 1);
    }
  }

  lemma {:induction false} StartIsTotal(keys: seq<nat>, m: nat)
    ensures Start(keys, m) == Total(keys, |keys|, m)
  {
    if m > 0 {
      StartIsTotal(keys, m - 1);
    }
  }

  lemma StartOfAll(keys: seq<nat>, m: nat)
    requires KeysBelow(keys, m)
    ensures Start(keys, m) == |keys|
  {
    StartIsTotal(keys, m);
    BucketsTile(keys, |keys|, m);
  }

  lemma StartWithin(keys: seq<nat>, m: nat, k: nat)
    requires KeysBelow(keys, m) && k <= m
    ensures Start(keys, k) <= |keys|
  {
    var a, b := Start(keys, k), Start(keys, m);
    assert a <= b by {
      StartGrows(keys, k, m);
    }
    assert b == |keys| by {
      StartOfAll(keys, m);
    }
  }

  /** Where the next item goes, and that it lies inside its own bucket's run. */
  lemma Room(keys: seq<nat>, u: nat, m: nat, k: nat)
    requires KeysBelow(keys, m) && u < |keys| && keys[u] == k
    ensures Start(keys, k) + |Bucket(keys, u, k)| < |keys|
    ensures |Bucket(keys, u, k)| < |Bucket(keys, |keys|, k)|
  {
    assert |Bucket(keys, u, k)| < |Bucket(keys, |keys|, k)| by {
      BucketGrows(keys, u, |keys|, k);
    }
    assert k < m;
    StartWithin(keys, m, k + 1);
  }

  /** Writing item `u` at the end of its bucket's filled part places one more item and disturbs no bucket. */
  lemma PlaceOne(at: seq<nat>, keys: seq<nat>, u: nat, m: nat)
    requires KeysBelow(keys, m) && u < |keys| && |at| == |keys| && AllPlaced(at, keys, u, m)
    ensures var p := Start(keys, keys[u]) + |Bucket(keys, u, keys[u])|;
            p < |at| && AllPlaced(at[p := u], keys, u + 1, m)
  {
    Room(keys, u, m, keys[u]);
    var p := Start(keys, keys[u]) + |Bucket(keys, u, keys[u])|;
    forall k {:trigger Placed(at[p := u], keys, u + 1, k)} | 0 <= k < m
      ensures Placed(at[p := u], keys, u + 1, k)
    {
      assert Placed(at, keys, u, k);
      if k < keys[u] {
        StartGrows(keys, k, keys[u]);
        BucketGrows(keys, u, |keys|, k);
      } else if k > keys[u] {
        StartGrows(keys, keys[u], k);
      }
    }
  }

  // ---- The counters the loops keep ----

  ghost predicate CountIs(counts: seq<nat>, keys: seq<nat>, u: nat, k: nat)
    requires u <= |keys| && k < |counts|
  {
    counts[k] == |Bucket(keys, u, k)|
  }

  ghost predicate CursorIs(counts: seq<nat>, keys: seq<nat>, u: nat, k: nat)
    requires u <= |keys| && k < |counts|
  {
    counts[k] == Start(keys, k) + |Bucket(keys, u, k)|
  }

  ghost predicate CountsFrom(counts: seq<nat>, keys: seq<nat>, u: nat, from: nat)
    requires u <= |keys|
  {
    forall k {:trigger CountIs(counts, keys, u, k)} :: from <= k < |counts| ==> CountIs(counts, keys, u, k)
  }

  ghost predicate CursorsBelow(counts: seq<nat>, keys: seq<nat>, u: nat, to: nat)
    requires u <= |keys|
  {
    forall k {:trigger CursorIs(counts, keys, u, k)} :: 0 <= k < to && k < |counts| ==> CursorIs(counts, keys, u, k)
  }

  lemma CountOne(counts: seq<nat>, keys: seq<nat>, u: nat)
    requires u < |keys| && keys[u] < |counts| && CountsFrom(counts, keys, u, 0)
    ensures CountsFrom(counts[keys[u] := counts[keys[u]] + 1], keys, u + 1, 0)
  {
    var c := counts[keys[u] := counts[keys[u]] + 1];
    forall k {:trigger CountIs(c, keys, u + 1, k)} | 0 <= k < |c|
      ensures CountIs(c, keys, u + 1, k)
    {
      assert CountIs(counts, keys, u, k);
    }
  }

  lemma CursorOne(counts: seq<nat>, keys: seq<nat>, u: nat)
    requires u < |keys| && keys[u] < |counts| && CursorsBelow(counts, keys, u, |counts|)
    ensures CursorsBelow(counts[keys[u] := counts[keys[u]] + 1], keys, u + 1, |counts|)
  {
    var c := counts[keys[u] := counts[keys[u]] + 1];
    forall k {:trigger CursorIs(c, keys, u + 1, k)} | 0 <= k < |c|
      ensures CursorIs(c, keys, u + 1, k)
    {
      assert CursorIs(counts, keys, u, k);
    }
  }

  /** Turning count `k` into the position its bucket starts at. */
  lemma PrefixOne(counts: seq<nat>, keys: seq<nat>, k: nat)
    requires k < |counts| && CursorsBelow(counts, keys, 0, k) && CountsFrom(counts, keys, |keys|, k)
    ensures counts[k] == |Bucket(keys, |keys|, k)|
    ensures CursorsBelow(counts[k := Start(keys, k)], keys, 0, k + 1)
    ensures CountsFrom(counts[k := Start(keys, k)], keys, |keys|, k + 1)
  {
    assert CountIs(counts, keys, |keys|, k);
    var c := counts[k := Start(keys, k)];
    forall j {:trigger CursorIs(c, keys, 0, j)} | 0 <= j < k + 1
      ensures CursorIs(c, keys, 0, j)
    {
      assert j < k ==> CursorIs(counts, keys, 0, j);
    }
    forall j {:trigger CountIs(c, keys, |keys|, j)} | k + 1 <= j < |c|
      ensures CountIs(c, keys, |keys|, j)
    {
      assert CountIs(counts, keys, |keys|, j);
    }
  }

  /** Entry `k` of `group_start` is where bucket `k` starts. */
  ghost predicate StartIs(starts: seq<nat>, keys: seq<nat>, k: nat) {
    k < |starts| && starts[k] == Start(keys, k)
  }

  ghost predicate StartsTo(starts: seq<nat>, keys: seq<nat>, to: nat) {
    forall k {:trigger StartIs(starts, keys, k)} :: 0 <= k < to ==> StartIs(starts, keys, k)
  }

  // ---- A finished scatter is the stable sort by key ----

  ghost predicate Scattered(at: seq<nat>, keys: seq<nat>, m: nat) {
    |at| == |keys| && AllPlaced(at, keys, |keys|, m)
  }

  /** The bucket whose run holds position `p`. */
  lemma {:induction false} BucketAt(keys: seq<nat>, m: nat, p: nat) returns (k: nat)
    requires p < Start(keys, m)
    ensures k < m && Start(keys, k) <= p < Start(keys, k + 1)
  {
    if p >= Start(keys, m - 1) {
      k := m - 1;
    } else {
      k := BucketAt(keys, m - 1, p);
    }
  }

  /** What lies at a position, in which bucket, and where in it. */
  lemma ItemAt(at: seq<nat>, keys: seq<nat>, m: nat, p: nat) returns (k: nat, j: nat)
    requires Scattered(at, keys, m) && p < |at| == Start(keys, m)
    ensures k < m && p == Start(keys, k) + j && j < |Bucket(keys, |keys|, k)|
    ensures at[p] == Bucket(keys, |keys|, k)[j] && at[p] < |keys| && keys[at[p]] == k
  {
    k := BucketAt(keys, m, p);
    j := p - Start(keys, k);
    assert Placed(at, keys, |keys|, k);
    assert at[p] == at[Start(keys, k)..Start(keys, k) + |Bucket(keys, |keys|, k)|][j];
    BucketItem(keys, |keys|, k, j);
  }

  lemma {:induction false} BucketRises(keys: seq<nat>, u: nat, k: nat, a: nat, b: nat)
    requires u <= |keys|
    requires a < b < |Bucket(keys, u, k)|
    ensures Bucket(keys, u, k)[a] < Bucket(keys, u, k)[b]
  {
    if b < |Bucket(keys, u - 1, k)| {
      BucketRises(keys, u - 1, k, a, b);
    } else {
      BucketItem(keys, u - 1, k, a);
    }
  }

  /** How often an item occurs in a bucket: once in its own, never in another. */
  function InBucket(keys: seq<nat>, u: nat, k: nat, i: nat): nat
    requires u <= |keys|
  {
    if i < u && keys[i] == k then 1 else 0
  }

  lemma {:induction false} BucketCount(keys: seq<nat>, u: nat, k: nat, i: nat)
    requires u <= |keys|
    ensures Occurs(Bucket(keys, u, k), i) == InBucket(keys, u, k, i)
  {
    if u > 0 {
      var b, x := Bucket(keys, u - 1, k), u - 1;
      BucketCount(keys, x, k, i);
      AppendCount(b, x, i);
      assert Bucket(keys, u, k) == if keys[x] == k then b + [x] else b;
    }
  }

  lemma AppendCount(s: seq<nat>, x: nat, i: nat)
    ensures Occurs(s + [x], i) == Occurs(s, i) + if i == x then 1 else 0
  {}

  lemma JoinCount(a: seq<nat>, b: seq<nat>, i: nat)
    ensures Occurs(a + b, i) == Occurs(a, i) + Occurs(b, i)
  {}

  /** Ascending by key, and items with one key in their own order. */
  predicate InOrder(keys: seq<nat>, i: nat, j: nat) {
    i < |keys| && j < |keys| && (keys[i] < keys[j] || (keys[i] == keys[j] && i < j))
  }

  lemma ScatteredIsStable(at: seq<nat>, keys: seq<nat>, m: nat, p: nat, q: nat)
    requires KeysBelow(keys, m) && Scattered(at, keys, m) && p < q < |at|
    ensures InOrder(keys, at[p], at[q])
  {
    StartOfAll(keys, m);
    var k, a := ItemAt(at, keys, m, p);
    var l, b := ItemAt(at, keys, m, q);
    if k == l {
      BucketRises(keys, |keys|, k, a, b);
    } else if l < k {
      StartGrows(keys, l, k);
    }
  }

  /** Items in the order of a list of buckets. */
  function Gather(keys: seq<nat>, ks: seq<nat>): seq<nat> {
    if ks == [] then [] else Gather(keys, ks[..|ks| - 1]) + Bucket(keys, |keys|, ks[|ks| - 1])
  }

  /** Listing buckets lists each item as often as its bucket. */
  lemma {:induction false} GatherCount(keys: seq<nat>, ks: seq<nat>, i: nat)
    ensures Occurs(Gather(keys, ks), i) == if i < |keys| then Occurs(ks, keys[i]) else 0
  {
    if ks != [] {
      var n := |ks| - 1;
      var k, rest := ks[n], ks[..n];
      GatherCount(keys, rest, i);
      BucketCount(keys, |keys|, k, i);
      JoinCount(Gather(keys, rest), Bucket(keys, |keys|, k), i);
      assert ks == rest + [k];
      if i < |keys| {
        AppendCount(rest, k, keys[i]);
      }
    }
  }

  lemma GatherOne(keys: seq<nat>, ks: seq<nat>, k: nat)
    ensures Gather(keys, ks + [k]) == Gather(keys, ks) + Bucket(keys, |keys|, k)
  {
    assert (ks + [k])[..|ks|] == ks;
  }

  lemma {:induction false} GatherSplit(keys: seq<nat>, a: seq<nat>, b: seq<nat>)
    ensures Gather(keys, a + b) == Gather(keys, a) + Gather(keys, b)
  {
    if b == [] {
      assert a + b == a;
    } else {
      var b', k := b[..|b| - 1], b[|b| - 1];
      assert a + b == a + b' + [k] && b == b' + [k];
      GatherSplit(keys, a, b');
      GatherOne(keys, a + b', k);
      GatherOne(keys, b', k);
    }
  }

  /** `n` numbers from `from` on. */
  function Range(from: nat, n: nat): (s: seq<nat>)
    ensures |s| == n && forall i :: 0 <= i < n ==> s[i] == from + i
  {
    seq(n, i requires 0 <= i < n => from + i)
  }

  lemma {:induction false} RangeOnce(from: nat, n: nat)
    ensures OnceEach(Range(from, n), from, from + n)
  {
    if n > 0 {
      RangeOnce(from, n - 1);
      var x := from + n - 1;
      assert Range(from, n) == Range(from, n - 1) + [x];
      assert OnceEach([x], x, x + 1);
      OnceJoin(Range(from, n - 1), [x], from, x, x + 1);
    }
  }

  /** Once each bucket is listed once, each item is listed once. */
  lemma GatherAll(keys: seq<nat>, ks: seq<nat>, m: nat)
    requires KeysBelow(keys, m) && OnceEach(ks, 0, m)
    ensures OnceEach(Gather(keys, ks), 0, |keys|)
  {
    var all := Gather(keys, ks);
    forall i: nat {:trigger Occurs(all, i)}
      ensures Occurs(all, i) == if 0 <= i < |keys| then 1 else 0
    {
      GatherCount(keys, ks, i);
      if i < |keys| {
        var k := keys[i];
        assert k < m;
        assert Occurs(ks, k) == 1;
      }
    }
  }

  lemma JoinSlices(at: seq<nat>, a: nat, b: seq<nat>, p: nat)
    requires p == a + |b| && p <= |at| && at[a..p] == b
    ensures at[..p] == at[..a] + b
  {}

  lemma {:induction false} ScatteredIsGather(at: seq<nat>, keys: seq<nat>, m: nat, k: nat, p: nat)
    requires Scattered(at, keys, m) && k <= m && p == Start(keys, k) && p <= |at|
    ensures at[..p] == Gather(keys, Range(0, k))
  {
    if k > 0 {
      var j := k - 1;
      var a, b := Start(keys, j), Bucket(keys, |keys|, j);
      ScatteredIsGather(at, keys, m, j, a);
      assert at[a..p] == b by {
        assert Placed(at, keys, |keys|, j);
      }
      JoinSlices(at, a, b, p);
      assert Range(0, k) == Range(0, j) + [j];
      GatherOne(keys, Range(0, j), j);
    }
  }

  /** The scatter is a permutation. */
  lemma ScatteredIsPermutation(at: seq<nat>, keys: seq<nat>, m: nat)
    requires KeysBelow(keys, m) && Scattered(at, keys, m)
    ensures OnceEach(at, 0, |keys|)
  {
    StartOfAll(keys, m);
    ScatteredIsGather(at, keys, m, m, |at|);
    assert at[..|at|] == at;
    RangeOnce(0, m);
    GatherAll(keys, Range(0, m), m);
  }
}
