/**
 The theory of cyclic linear probing without deletion. A table is a sequence of
 slots; a key starts at its home slot and walks forward, wrapping at the end.
 */
module Probing {
  import opened Common

  /** The home slot: what is left of the hash once every multiple of the capacity is taken away. */
  function Home(hash: nat, cap: nat): (home: nat)
    requires cap > 0
    ensures home < cap
  {
    if hash < cap then hash else Home(hash - cap, cap)
  }

  /** The home slot is the remainder of the hash, which for a power of two is the mask `hash & (cap - 1)`. */
  lemma {:induction false} HomeIsRemainder(hash: nat, cap: nat) returns (q: nat)
    requires cap > 0
    ensures hash == q * cap + Home(hash, cap)
  {
    if hash < cap {
      q := 0;
    } else {
      var p := HomeIsRemainder(hash - cap, cap);
      q := p + 1;
    }
  }

  function Next(i: nat, cap: nat): (j: nat)
    requires i < cap
    ensures j < cap
  {
    if i + 1 < cap then i + 1 else 0
  }

  /** Slot `j` lies on the cyclic walk that starts at `from` and stops before `to`. */
  predicate OnWalk(from: nat, j: nat, to: nat) {
    if from <= to then from <= j < to else from <= j || j < to
  }

  /** Steps from `i` forward to `e`. */
  function Distance(i: nat, e: nat, cap: nat): nat
    requires i < cap && e < cap
  {
    if i <= e then e - i else e + cap - i
  }

  /** One step forward adds exactly the slot stepped over, as long as the walk has not come full circle. */
  lemma NextOnWalk(from: nat, i: nat, cap: nat)
    requires from < cap && i < cap
    ensures forall j {:trigger OnWalk(from, j, Next(i, cap))} :: 0 <= j < cap && OnWalk(from, j, Next(i, cap)) ==> j == i || OnWalk(from, j, i)
  {}

  /** Every slot on the walk is taken. */
  ghost predicate WalkTaken(marks: seq<nat>, from: nat, to: nat) {
    forall j {:trigger OnWalk(from, j, to)} :: 0 <= j < |marks| && OnWalk(from, j, to) ==> marks[j] != 0
  }

  /**
   A table is a sequence of marks (0 for an empty slot) with the keys and values beside it. It holds
   exactly the bindings of `m`; `pos` says where. Each key sits in one slot only, under its own mark,
   and no empty slot lies between a key's home and its slot.
   */
  ghost predicate Holds<K(!new)>(t: Table<K>, m: map<K, nat>, pos: map<K, nat>) {
    && |t.marks| == |t.ks| == |t.vs|
    && Filled(t.marks) == |m|
    && (forall i {:trigger SlotOk(t, m, pos, i)} :: 0 <= i < |t.ks| && t.marks[i] != 0 ==> SlotOk(t, m, pos, i))
    && (forall k {:trigger Located(t, pos, k)} :: k in m ==> Located(t, pos, k))
  }

  datatype Table<!K> = Table(marks: seq<nat>, ks: seq<K>, vs: seq<nat>, hash: K -> nat, mark: K -> nat)

  ghost predicate SlotOk<K>(t: Table<K>, m: map<K, nat>, pos: map<K, nat>, i: nat)
    requires |t.marks| == |t.ks| == |t.vs| && i < |t.ks|
  {
    && t.marks[i] == t.mark(t.ks[i])
    && t.ks[i] in m && m[t.ks[i]] == t.vs[i] && t.ks[i] in pos && pos[t.ks[i]] == i
    && WalkTaken(t.marks, Home(t.hash(t.ks[i]), |t.ks|), i)
  }

  ghost predicate Located<K>(t: Table<K>, pos: map<K, nat>, k: K)
    requires |t.marks| == |t.ks|
  {
    k in pos && pos[k] < |t.ks| && t.marks[pos[k]] != 0 && t.ks[pos[k]] == k
  }

  function Filled(marks: seq<nat>): nat {
    if marks == [] then 0 else Filled(marks[..|marks| - 1]) + (if marks[|marks| - 1] != 0 then 1 else 0)
  }

  /** A table that is not completely filled has an empty slot, which is what stops every probe. */
  lemma {:induction false} EmptySlotExists(marks: seq<nat>) returns (e: nat)
    requires Filled(marks) < |marks|
    ensures e < |marks| && marks[e] == 0
  {
    if marks[|marks| - 1] == 0 {
      e := |marks| - 1;
    } else {
      e := EmptySlotExists(marks[..|marks| - 1]);
    }
  }

  lemma {:induction false} FilledAfterInsert(marks: seq<nat>, i: nat, mark: nat)
    requires i < |marks| && marks[i] == 0 && mark != 0
    ensures Filled(marks[i := mark]) == Filled(marks) + 1
  {
    var t := marks[i := mark];
    if i == |marks| - 1 {
      assert t[..|marks| - 1] == marks[..|marks| - 1];
    } else {
      assert t[..|marks| - 1] == marks[..|marks| - 1][i := mark];
      FilledAfterInsert(marks[..|marks| - 1], i, mark);
    }
  }

  lemma {:induction false} FilledAllEmpty(marks: seq<nat>)
    requires forall i :: 0 <= i < |marks| ==> marks[i] == 0
    ensures Filled(marks) == 0
  {
    if marks != [] {
      FilledAllEmpty(marks[..|marks| - 1]);
    }
  }

  /** A walk that met no `key` and stopped at an empty slot proves `key` is nowhere in the table. */
  lemma WalkToEmptyIsAbsent<K(!new)>(t: Table<K>, m: map<K, nat>, pos: map<K, nat>, key: K, i: nat)
    requires Holds(t, m, pos) && i < |t.ks| && t.marks[i] == 0
    requires forall j {:trigger OnWalk(Home(t.hash(key), |t.ks|), j, i)} ::
      0 <= j < |t.ks| && OnWalk(Home(t.hash(key), |t.ks|), j, i) ==> t.ks[j] != key
    ensures key !in m
  {
    if key in m {
      assert Located(t, pos, key);
      assert SlotOk(t, m, pos, pos[key]);
      AroundTheWalk(Home(t.hash(key), |t.ks|), pos[key], i);
      assert false;
    }
  }

  /** Two slots on the cycle: whichever the walk from `from` meets first is on the walk to the other. */
  lemma AroundTheWalk(from: nat, a: nat, b: nat)
    ensures a == b || OnWalk(from, a, b) || OnWalk(from, b, a)
  {}

  function FillAt<K>(t: Table<K>, i: nat, key: K, value: nat): Table<K>
    requires |t.marks| == |t.ks| == |t.vs| && i < |t.ks|
  {
    t.(marks := t.marks[i := t.mark(key)], ks := t.ks[i := key], vs := t.vs[i := value])
  }

  /** Filling the empty slot at the end of a new key's walk adds exactly that binding. */
  lemma FillSlot<K(!new)>(t: Table<K>, m: map<K, nat>, pos: map<K, nat>, i: nat, key: K, value: nat)
    requires Holds(t, m, pos) && i < |t.ks| && t.marks[i] == 0 && t.mark(key) != 0
    requires key !in m && WalkTaken(t.marks, Home(t.hash(key), |t.ks|), i)
    ensures Holds(FillAt(t, i, key, value), m[key := value], pos[key := i])
  {
    var t', m', pos' := FillAt(t, i, key, value), m[key := value], pos[key := i];
    FilledAfterInsert(t.marks, i, t.mark(key));
    forall j {:trigger SlotOk(t', m', pos', j)} | 0 <= j < |t.ks| && t'.marks[j] != 0
      ensures SlotOk(t', m', pos', j)
    {
      assert j == i || SlotOk(t, m, pos, j);
    }
    forall k {:trigger Located(t', pos', k)} | k in m'
      ensures Located(t', pos', k)
    {
      assert k == key || Located(t, pos, k);
    }
  }

  /** Overwriting the value in a key's slot rebinds exactly that key. */
  lemma OverwriteSlot<K(!new)>(t: Table<K>, m: map<K, nat>, pos: map<K, nat>, i: nat, value: nat)
    requires Holds(t, m, pos) && i < |t.ks| && t.marks[i] != 0
    ensures SlotOk(t, m, pos, i)
    ensures Holds(t.(vs := t.vs[i := value]), m[t.ks[i] := value], pos)
  {
    assert SlotOk(t, m, pos, i);
    var t', m' := t.(vs := t.vs[i := value]), m[t.ks[i] := value];
    assert |m'| == |m| by {
      assert m'.Keys == m.Keys;
    }
    forall j {:trigger SlotOk(t', m', pos, j)} | 0 <= j < |t.ks| && t'.marks[j] != 0
      ensures SlotOk(t', m', pos, j)
    {
      assert SlotOk(t, m, pos, j);
    }
    forall k {:trigger Located(t', pos, k)} | k in m'
      ensures Located(t', pos, k)
    {
      assert Located(t, pos, k);
    }
  }

  /** `moved` is `m` restricted to the keys stored before slot `i`: the state of a resize at slot `i`. */
  ghost predicate Moved<K(!new)>(m: map<K, nat>, pos: map<K, nat>, moved: map<K, nat>, i: nat) {
    |moved| <= i && forall k {:trigger MovedKey(m, pos, moved, i, k)} :: MovedKey(m, pos, moved, i, k)
  }

  ghost predicate MovedKey<K>(m: map<K, nat>, pos: map<K, nat>, moved: map<K, nat>, i: nat, k: K) {
    && (k in moved <==> k in m && k in pos && pos[k] < i)
    && (k in moved ==> moved[k] == m[k])
  }

  /** Stepping over slot `i` of a resize: a live slot adds its binding, which was not moved before. */
  lemma MovedStep<K(!new)>(t: Table<K>, m: map<K, nat>, pos: map<K, nat>, moved: map<K, nat>, i: nat)
    requires Holds(t, m, pos) && i < |t.ks| && Moved(m, pos, moved, i)
    ensures t.marks[i] == 0 ==> Moved(m, pos, moved, i + 1)
    ensures t.marks[i] != 0 ==> t.marks[i] == t.mark(t.ks[i]) && t.ks[i] !in moved
    ensures t.marks[i] != 0 ==> Moved(m, pos, moved[t.ks[i] := t.vs[i]], i + 1)
  {
    if t.marks[i] != 0 {
      assert SlotOk(t, m, pos, i);
      assert MovedKey(m, pos, moved, i, t.ks[i]);
    }
    var moved' := if t.marks[i] != 0 then moved[t.ks[i] := t.vs[i]] else moved;
    forall k {:trigger MovedKey(m, pos, moved', i + 1, k)} | true
      ensures MovedKey(m, pos, moved', i + 1, k)
    {
      assert MovedKey(m, pos, moved, i, k);
      assert k in m ==> Located(t, pos, k);
    }
  }

  lemma MovedAll<K(!new)>(t: Table<K>, m: map<K, nat>, pos: map<K, nat>, moved: map<K, nat>)
    requires Holds(t, m, pos) && Moved(m, pos, moved, |t.ks|)
    ensures moved == m
  {
    forall k | k in moved || k in m
      ensures k in moved && k in m && moved[k] == m[k]
    {
      assert MovedKey(m, pos, moved, |t.ks|, k);
      assert k in m ==> Located(t, pos, k);
    }
  }

  /** 64 doubled `n` times: the only bucket counts the maps ever have. */
  function Capacity(n: nat): (p: nat)
    ensures p >= 64
  {
    if n == 0 then 64 else 2 * Capacity(n - 1)
  }

  /** `cberg_round_pow2`: the least capacity that holds `n`, or SIZE_MAX when doubling would overflow. */
  method RoundPow2(n: nat) returns (p: nat, ghost doublings: nat)
    requires n <= SIZE_MAX
    ensures p >= n
    ensures p < SIZE_MAX ==> p == Capacity(doublings)
    ensures p < SIZE_MAX && p > 64 ==> p / 2 < n
    ensures p == SIZE_MAX ==> n > SIZE_MAX / 2
  {
    p, doublings := 64, 0;
    while p < n
      invariant p == Capacity(doublings) < SIZE_MAX
      invariant p > 64 ==> p / 2 < n
      decreases n - p
    {
      if p > SIZE_MAX / 2 {
        return SIZE_MAX, doublings;
      }
      p, doublings := p * 2, doublings + 1;
    }
  }
}
