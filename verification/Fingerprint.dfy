/**
 `cberg_fingerprint`: a digest of the table's (key, hash) pairs that does not depend on row
 order and, with an injective digest, tells any two key-to-hash maps apart.
 */
module Fingerprints {
  import opened Common
  import opened Sorting
  import opened TableSync
  import opened TableTheorems

  datatype Leaf = Leaf(key: string, hash: Hash)

  /** `CBERG_HASH_LEN`. */
  const HASH_LEN: nat := 32

  const ZERO_HASH: Hash := seq(HASH_LEN, _ => 0)

  /** `strcmp(a, b) <= 0`. */
  predicate StrLe(a: string, b: string) {
    a == [] || (b != [] && (a[0] < b[0] || (a[0] == b[0] && StrLe(a[1..], b[1..]))))
  }

  predicate LeafLe(a: Leaf, b: Leaf) {
    StrLe(a.key, b.key)
  }

  lemma {:induction false} StrLeTotal(a: string, b: string)
    ensures StrLe(a, b) || StrLe(b, a)
    ensures StrLe(a, b) && StrLe(b, a) ==> a == b
  {
    if a != [] && b != [] && a[0] == b[0] {
      StrLeTotal(a[1..], b[1..]);
      assert a == [a[0]] + a[1..] && b == [b[0]] + b[1..];
    }
  }

  lemma {:induction false} StrLeTransitive(a: string, b: string, c: string)
    requires StrLe(a, b) && StrLe(b, c)
    ensures StrLe(a, c)
  {
    if a != [] && a[0] == b[0] && b[0] == c[0] {
      StrLeTransitive(a[1..], b[1..], c[1..]);
    }
  }

  lemma LeafLeIsTotalPreorder()
    ensures TotalPreorder(LeafLe)
  {
    forall a: Leaf, b: Leaf
      ensures LeafLe(a, b) || LeafLe(b, a)
    {
      StrLeTotal(a.key, b.key);
    }
    forall a: Leaf, b: Leaf, c: Leaf | LeafLe(a, b) && LeafLe(b, c)
      ensures LeafLe(a, c)
    {
      StrLeTransitive(a.key, b.key, c.key);
    }
  }

  function Leaves(rows: Rows): (ls: seq<Leaf>)
    ensures |ls| == |rows| && forall i :: 0 <= i < |rows| ==> ls[i] == Leaf(KeyOf(rows, i), rows[i].chunk.hash)
  {
    seq(|rows|, i requires 0 <= i < |rows| => Leaf(rows[i].chunk.key, rows[i].chunk.hash))
  }

  function Bytes(key: string): (b: seq<nat>)
    ensures |b| == |key| && forall i :: 0 <= i < |key| ==> b[i] == key[i] as nat
  {
    seq(|key|, i requires 0 <= i < |key| => key[i] as nat)
  }

  /** What is fed to the digest: each key, a zero byte, its hash. */
  function Stream(leaves: seq<Leaf>): seq<nat> {
    if leaves == [] then [] else Bytes(leaves[0].key) + [0] + leaves[0].hash + Stream(leaves[1..])
  }

  function FingerprintOf(rows: Rows, digest: seq<nat> -> Hash): Hash {
    if rows == [] then ZERO_HASH else digest(Stream(Sort(Leaves(rows), LeafLe)))
  }

  lemma NoLeafTies(rows: Rows)
    requires DistinctKeys(rows)
    ensures NoTies(Leaves(rows), LeafLe)
  {
    forall x, y | x in Leaves(rows) && y in Leaves(rows) && LeafLe(x, y) && LeafLe(y, x)
      ensures x == y
    {
      StrLeTotal(x.key, y.key);
      var i :| 0 <= i < |rows| && Leaves(rows)[i] == x;
      var j :| 0 <= j < |rows| && Leaves(rows)[j] == y;
      assert Keys(rows)[i] == Keys(rows)[j];
    }
  }

  /** The fingerprint reads the table as a map: row order and everything but key and hash are irrelevant. */
  lemma SameMapSameFingerprint(a: Rows, b: Rows, digest: seq<nat> -> Hash)
    requires DistinctKeys(a) && DistinctKeys(b) && KeyHash(a) == KeyHash(b)
    ensures FingerprintOf(a, digest) == FingerprintOf(b, digest)
  {
    LeavesAreTheMap(a);
    LeavesAreTheMap(b);
    NoRowsNoKeys(a);
    NoRowsNoKeys(b);
    SameSetIsPermutation(Leaves(a), Leaves(b));
    LeafLeIsTotalPreorder();
    SortSorts(Leaves(a), LeafLe);
    SortSorts(Leaves(b), LeafLe);
    NoLeafTies(a);
    SameElements(Leaves(a), Sort(Leaves(a), LeafLe));
    SortedIsUnique(Sort(Leaves(a), LeafLe), Sort(Leaves(b), LeafLe), LeafLe);
  }

  lemma NoRowsNoKeys(rows: Rows)
    ensures rows == [] <==> KeyHash(rows) == map[]
  {
    if rows != [] {
      assert KeyOf(rows, |rows| - 1) in KeyHash(rows);
    }
  }

  lemma LeavesAreTheMap(rows: Rows)
    requires DistinctKeys(rows)
    ensures NoDuplicates(Leaves(rows))
    ensures forall x :: x in Leaves(rows) <==> x.key in KeyHash(rows) && KeyHash(rows)[x.key] == x.hash
  {
    var ls := Leaves(rows);
    forall i, j | 0 <= i < j < |rows|
      ensures ls[i] != ls[j]
    {
      assert Keys(rows)[i] != Keys(rows)[j];
    }
    forall x
      ensures x in ls <==> x.key in KeyHash(rows) && KeyHash(rows)[x.key] == x.hash
    {
      if x in ls {
        var i :| 0 <= i < |ls| && ls[i] == x;
        RowAt(rows, i);
      }
      if x.key in KeyHash(rows) && KeyHash(rows)[x.key] == x.hash {
        assert ls[Find(rows, x.key).value] == x;
      }
    }
  }

  /** Keys are C strings and hashes fill their field. */
  ghost predicate HashableRows(rows: Rows) {
    forall x :: x in Leaves(rows) ==> HashableLeaf(x)
  }

  ghost predicate HashableLeaf(x: Leaf) {
    |x.hash| == HASH_LEN && forall i :: 0 <= i < |x.key| ==> x.key[i] as nat != 0
  }

  /** The stream can be cut back into its leaves: a key ends at the first zero, a hash is 32 bytes. */
  lemma {:induction false} StreamIsInjective(x: seq<Leaf>, y: seq<Leaf>)
    requires Stream(x) == Stream(y)
    requires (forall l :: l in x ==> HashableLeaf(l)) && (forall l :: l in y ==> HashableLeaf(l))
    ensures x == y
  {
    if x != [] && y != [] {
      var s, kx, ky := Stream(x), Bytes(x[0].key), Bytes(y[0].key);
      assert HashableLeaf(x[0]) && HashableLeaf(y[0]);
      assert s[|kx|] == 0 && s[|ky|] == 0 && s[..|kx|] == kx && s[..|ky|] == ky;
      assert forall i :: 0 <= i < |kx| ==> kx[i] == s[i] != 0;
      assert forall i :: 0 <= i < |ky| ==> ky[i] == s[i] != 0;
      assert x[0].key == y[0].key by {
        assert forall i :: 0 <= i < |kx| ==> kx[i] == ky[i];
      }
      assert s[|kx| + 1..|kx| + 33] == x[0].hash && s[|kx| + 1..|kx| + 33] == y[0].hash;
      assert s[|kx| + 33..] == Stream(x[1..]) && s[|kx| + 33..] == Stream(y[1..]);
      StreamIsInjective(x[1..], y[1..]);
      assert x == [x[0]] + x[1..] && y == [y[0]] + y[1..];
    }
  }

  /** With an injective digest that is never all zeros, equal fingerprints mean equal key-to-hash maps, and back. */
  lemma FingerprintTellsTablesApart(a: Rows, b: Rows, digest: seq<nat> -> Hash)
    requires DistinctKeys(a) && DistinctKeys(b) && HashableRows(a) && HashableRows(b)
    requires forall s, t {:trigger digest(s), digest(t)} :: digest(s) == digest(t) ==> s == t
    requires forall s :: digest(s) != ZERO_HASH
    ensures FingerprintOf(a, digest) == FingerprintOf(b, digest) <==> KeyHash(a) == KeyHash(b)
  {
    if KeyHash(a) == KeyHash(b) {
      SameMapSameFingerprint(a, b, digest);
    }
    if FingerprintOf(a, digest) == FingerprintOf(b, digest) && a != [] && b != [] {
      var x, y := Sort(Leaves(a), LeafLe), Sort(Leaves(b), LeafLe);
      LeafLeIsTotalPreorder();
      SortSorts(Leaves(a), LeafLe);
      SortSorts(Leaves(b), LeafLe);
      SameElements(Leaves(a), x);
      SameElements(Leaves(b), y);
      StreamIsInjective(x, y);
      LeavesAreTheMap(a);
      LeavesAreTheMap(b);
      SameLeavesSameMap(a, b);
    }
  }

  lemma SameLeavesSameMap(a: Rows, b: Rows)
    requires DistinctKeys(a) && DistinctKeys(b)
    requires forall x :: x in Leaves(a) <==> x in Leaves(b)
    ensures KeyHash(a) == KeyHash(b)
  {
    SameLeavesSubmap(a, b);
    SameLeavesSubmap(b, a);
  }

  lemma SameLeavesSubmap(a: Rows, b: Rows)
    requires DistinctKeys(a) && DistinctKeys(b)
    requires forall x :: x in Leaves(a) ==> x in Leaves(b)
    ensures forall k :: k in KeyHash(a) ==> k in KeyHash(b) && KeyHash(b)[k] == KeyHash(a)[k]
  {
    LeavesAreTheMap(a);
    LeavesAreTheMap(b);
    forall k | k in KeyHash(a)
      ensures k in KeyHash(b) && KeyHash(b)[k] == KeyHash(a)[k]
    {
      assert Leaf(k, KeyHash(a)[k]) in Leaves(a);
    }
  }

  method CollectLeaves(rows: Rows) returns (leaves: seq<Leaf>)
    ensures leaves == Leaves(rows)
  {
    leaves := [];
    for i := 0 to |rows|
      invariant leaves == Leaves(rows)[..i]
    {
      leaves := leaves + [Leaf(rows[i].chunk.key, rows[i].chunk.hash)];
    }
  }

  method FeedDigest(sorted: seq<Leaf>) returns (state: seq<nat>)
    ensures state == Stream(sorted)
  {
    state := [];
    for i := 0 to |sorted|
      invariant state + Stream(sorted[i..]) == Stream(sorted)
    {
      var leaf := sorted[i];
      assert sorted[i..][1..] == sorted[i + 1..];
      state := state + (Bytes(leaf.key) + [0] + leaf.hash);
    }
    assert state + [] == state;
  }

  /** `cberg_fingerprint`: any allocation may fail; otherwise the result is the fingerprint. */
  method ComputeFingerprint(rows: Rows, digest: seq<nat> -> Hash) returns (st: Status, out: Hash)
    ensures st == Ok || st == OutOfMemory
    ensures st == Ok && DistinctKeys(rows) ==> out == FingerprintOf(rows, digest)
  {
    out := ZERO_HASH;
    if |rows| == 0 {
      return Ok, out;
    }
    var ok := TryAlloc(|rows| * 2);
    if !ok {
      return OutOfMemory, out;
    }
    var leaves := CollectLeaves(rows);
    LeafLeIsTotalPreorder();
    var sorted := QSort(leaves, LeafLe);
    if DistinctKeys(rows) {
      SortSorts(leaves, LeafLe);
      NoLeafTies(rows);
      SameElements(leaves, Sort(leaves, LeafLe));
      SortedIsUnique(Sort(leaves, LeafLe), sorted, LeafLe);
    }
    ok := TryAlloc(1);
    if !ok {
      return OutOfMemory, out;
    }
    var state := FeedDigest(sorted);
    return Ok, digest(state);
  }
}
