/**
 `cberg_strmap`: the open-addressing string map, stored as three parallel arrays
 with 0 as the empty mark in the hash array. `Contents` is the map it stands for.
 */
module StrMaps {
  import opened Common
  import opened Probing

  /** `hash_key`: moves a hash of 0 off the empty mark. */
  function Nudge(hash: nat): (h: nat)
    ensures h != 0
  {
    hash + (if hash == 0 then 1 else 0)
  }

  class StrMap {
    /** `hash_key` over an arbitrary string hash; every result below holds whatever that hash computes. */
    const hashKey: string -> nat

    var hashes: array<nat>
    var keys: array<string>
    var values: array<nat>
    var bucketCount: nat
    var count: nat

    ghost var Contents: map<string, nat>
    ghost var Pos: map<string, nat>
    ghost var Doublings: nat

    ghost function Repr(): set<object>
      reads this
    {
      {this, hashes, keys, values}
    }

    /** The three arrays as one table; a slot's mark is the stored hash of its key. */
    ghost function T(hs: array<nat>, ks: array<string>, vs: array<nat>): Table<string>
      reads hs, ks, vs
    {
      Table(hs[..], ks[..], vs[..], hashKey, hashKey)
    }

    ghost predicate Valid()
      reads this, hashes, keys, values
    {
      && hashes.Length == bucketCount == Capacity(Doublings)
      && hashes != values
      && (forall k :: hashKey(k) != 0)
      && Holds(T(hashes, keys, values), Contents, Pos)
      && count == |Contents| && count * 4 < bucketCount * 3
    }

    /** `cberg_strmap_new`, once its buckets are allocated. */
    constructor (fnv1a: string -> nat, buckets: nat, ghost doublings: nat)
      requires buckets == Capacity(doublings)
      ensures Valid() && fresh(Repr()) && Contents == map[]
      ensures forall k :: hashKey(k) == Nudge(fnv1a(k))
    {
      hashKey := k => Nudge(fnv1a(k));
      var hs := new nat[buckets](_ => 0);
      var ks := new string[buckets](_ => "");
      var vs := new nat[buckets](_ => 0);
      hashes, keys, values, bucketCount, count := hs, ks, vs, buckets, 0;
      Contents, Pos, Doublings := map[], map[], doublings;
      new;
      FilledAllEmpty(hashes[..]);
    }

    /** The probe loop: the slot that holds `key`, or the empty slot where it would go. */
    method Probe(key: string) returns (i: nat, found: bool)
      requires Valid()
      ensures i < bucketCount && found == (key in Contents)
      ensures found ==> hashes[i] != 0 && keys[i] == key
      ensures !found ==> hashes[i] == 0 && WalkTaken(hashes[..], Home(hashKey(key), bucketCount), i)
    {
      var h := hashKey(key);
      i := Home(h, bucketCount);
      ghost var t := T(hashes, keys, values);
      ghost var e := EmptySlotExists(t.marks);
      while hashes[i] != 0
        invariant i < bucketCount
        invariant forall j {:trigger OnWalk(Home(h, bucketCount), j, i)} ::
          0 <= j < bucketCount && OnWalk(Home(h, bucketCount), j, i) ==> t.marks[j] != 0 && t.ks[j] != key
        decreases Distance(i, e, bucketCount)
      {
        assert SlotOk(t, Contents, Pos, i);
        if hashes[i] == h && keys[i] == key {
          return i, true;
        }
        NextOnWalk(Home(h, bucketCount), i, bucketCount);
        i := Next(i, bucketCount);
      }
      WalkToEmptyIsAbsent(t, Contents, Pos, key, i);
      found := false;
    }

    /** `cberg_strmap_get`. */
    method Get(key: string) returns (value: Option<nat>)
      requires Valid()
      ensures value == if key in Contents then Some(Contents[key]) else None
    {
      var i, found := Probe(key);
      assert found ==> SlotOk(T(hashes, keys, values), Contents, Pos, i);
      value := if found then Some(values[i]) else None;
    }

    /** Writes a binding into the empty slot its probe ended at. */
    method Fill(hs: array<nat>, ks: array<string>, vs: array<nat>, i: nat, key: string, value: nat,
                ghost m: map<string, nat>, ghost pos: map<string, nat>)
      requires hs != vs && Holds(T(hs, ks, vs), m, pos) && hashKey(key) != 0
      requires i < hs.Length && hs[i] == 0 && key !in m && WalkTaken(hs[..], Home(hashKey(key), hs.Length), i)
      modifies hs, ks, vs
      ensures Holds(T(hs, ks, vs), m[key := value], pos[key := i])
    {
      ghost var t := T(hs, ks, vs);
      FillSlot(t, m, pos, i, key, value);
      hs[i], ks[i], vs[i] := hashKey(key), key, value;
      assert T(hs, ks, vs) == FillAt(t, i, key, value);
    }

    /** One step of `strmap_resize`: probe the new arrays from the stored hash and place the binding. */
    method Place(hs: array<nat>, ks: array<string>, vs: array<nat>, h: nat, key: string, value: nat,
                 ghost m: map<string, nat>, ghost pos: map<string, nat>) returns (ghost at: nat)
      requires hs != vs && h == hashKey(key) != 0 && key !in m && |m| < hs.Length
      requires Holds(T(hs, ks, vs), m, pos)
      modifies hs, ks, vs
      ensures Holds(T(hs, ks, vs), m[key := value], pos[key := at])
    {
      ghost var t := T(hs, ks, vs);
      ghost var e := EmptySlotExists(t.marks);
      var j: nat := Home(h, hs.Length);
      while hs[j] != 0
        invariant j < hs.Length && WalkTaken(t.marks, Home(h, hs.Length), j)
        invariant T(hs, ks, vs) == t
        decreases Distance(j, e, hs.Length)
      {
        NextOnWalk(Home(h, hs.Length), j, hs.Length);
        j := Next(j, hs.Length);
      }
      Fill(hs, ks, vs, j, key, value, m, pos);
      at := j;
    }

    /** The loop of `strmap_resize`: fresh, larger arrays into which every live slot has been placed. */
    method Rehash(newCount: nat) returns (hs: array<nat>, ks: array<string>, vs: array<nat>, ghost pos: map<string, nat>)
      requires Valid() && newCount > bucketCount
      ensures fresh(hs) && fresh(ks) && fresh(vs) && hs != vs && hs.Length == newCount
      ensures Holds(T(hs, ks, vs), Contents, pos)
    {
      hs := new nat[newCount](_ => 0);
      ks := new string[newCount](_ => "");
      vs := new nat[newCount](_ => 0);
      FilledAllEmpty(hs[..]);
      ghost var t := T(hashes, keys, values);
      ghost var moved: map<string, nat> := map[];
      pos := map[];
      for i := 0 to bucketCount
        invariant Holds(T(hs, ks, vs), moved, pos)
        invariant Moved(Contents, Pos, moved, i)
      {
        MovedStep(t, Contents, Pos, moved, i);
        var h := hashes[i];
        if h != 0 {
          ghost var at := Place(hs, ks, vs, h, keys[i], values[i], moved, pos);
          moved, pos := moved[t.ks[i] := t.vs[i]], pos[t.ks[i] := at];
        }
      }
      MovedAll(t, Contents, Pos, moved);
    }

    /** `strmap_resize`: a table twice the size with the same bindings, or no change at all. */
    method Resize() returns (st: Status)
      requires Valid()
      modifies this
      ensures Valid() && Contents == old(Contents)
      ensures st == Ok || st == OutOfMemory
      ensures st != Ok ==> unchanged(this)
      ensures st == Ok ==> bucketCount == 2 * old(bucketCount) && fresh(hashes) && fresh(keys) && fresh(values)
    {
      var ok := TryAlloc(2 * bucketCount);
      if !ok {
        return OutOfMemory;
      }
      var hs, ks, vs;
      ghost var pos;
      hs, ks, vs, pos := Rehash(2 * bucketCount);
      ghost var t := T(hs, ks, vs);
      hashes, keys, values, bucketCount := hs, ks, vs, 2 * bucketCount;
      Pos, Doublings := pos, Doublings + 1;
      assert T(hashes, keys, values) == t;
      return Ok;
    }

    /** The two writes of `cberg_strmap_set`: over a live slot, or into the empty slot the probe ended at. */
    method Write(i: nat, found: bool, key: string, value: nat)
      requires Valid() && i < bucketCount && found == (key in Contents)
      requires found ==> hashes[i] != 0 && keys[i] == key
      requires !found ==> hashes[i] == 0 && WalkTaken(hashes[..], Home(hashKey(key), bucketCount), i)
      requires !found ==> (count + 1) * 4 < bucketCount * 3
      modifies this, hashes, keys, values
      ensures Valid() && Contents == old(Contents)[key := value]
      ensures hashes == old(hashes) && keys == old(keys) && values == old(values)
    {
      if found {
        ghost var t := T(hashes, keys, values);
        OverwriteSlot(t, Contents, Pos, i, value);
        values[i] := value;
        Contents := Contents[key := value];
        assert T(hashes, keys, values) == t.(vs := t.vs[i := value]);
      } else {
        Fill(hashes, keys, values, i, key, value, Contents, Pos);
        ghost var t := T(hashes, keys, values);
        Contents, Pos := Contents[key := value], Pos[key := i];
        count := count + 1;
        assert T(hashes, keys, values) == t;
      }
    }

    /** `cberg_strmap_set`: overwrites or adds one binding; a failed call changes no binding. */
    method Set(key: string, value: nat) returns (st: Status)
      requires Valid()
      modifies Repr()
      ensures Valid() && fresh(Repr() - old(Repr()))
      ensures st == Ok || st == OutOfMemory
      ensures Contents == if st == Ok then old(Contents)[key := value] else old(Contents)
      ensures key in old(Contents) ==> st == Ok
    {
      var i, found := Probe(key);
      if !found {
        if (count + 1) * 4 >= bucketCount * 3 {
          st := Resize();
          if st != Ok {
            return;
          }
          i, found := Probe(key);
        }
        var stored := TryAlloc(|key|);
        if !stored {
          return OutOfMemory;
        }
      }
      Write(i, found, key, value);
      return Ok;
    }

    /** `cberg_strmap_clear`. */
    method Clear()
      requires Valid()
      modifies Repr()
      ensures Valid() && Repr() == old(Repr()) && Contents == map[]
    {
      for i := 0 to bucketCount
        invariant unchanged(this) && unchanged(values)
        invariant forall j :: 0 <= j < i ==> hashes[j] == 0
      {
        hashes[i] := 0;
        keys[i] := "";
      }
      count := 0;
      Contents, Pos := map[], map[];
      FilledAllEmpty(hashes[..]);
    }

    /** `cberg_strmap_visit` with a callback that collects: every binding once, in slot order. */
    method Visit() returns (items: seq<(string, nat)>)
      requires Valid()
      ensures forall k :: k in Contents ==> (k, Contents[k]) in items
      ensures forall i :: 0 <= i < |items| ==> items[i].0 in Contents && items[i].1 == Contents[items[i].0]
      ensures forall i, j :: 0 <= i < j < |items| ==> items[i].0 != items[j].0
    {
      items := [];
      ghost var t := T(hashes, keys, values);
      assert forall k :: k in Contents ==> Located(t, Pos, k);
      for i := 0 to bucketCount
        invariant forall j :: 0 <= j < |items| ==>
                    items[j].0 in Contents && items[j].1 == Contents[items[j].0]
                    && items[j].0 in Pos && Pos[items[j].0] < i
        invariant forall j, k :: 0 <= j < k < |items| ==> items[j].0 != items[k].0
        invariant forall k :: k in Contents && k in Pos && Pos[k] < i ==> (k, Contents[k]) in items
      {
        if hashes[i] != 0 {
          assert SlotOk(t, Contents, Pos, i);
          items := items + [(keys[i], values[i])];
        }
      }
    }
  }

  /** `cberg_strmap_new`: null when an allocation fails. */
  method NewStrMap(fnv1a: string -> nat, bucketCount: nat) returns (m: StrMap?)
    requires bucketCount <= SIZE_MAX
    ensures m != null ==> m.Valid() && fresh(m.Repr()) && m.Contents == map[]
  {
    ghost var doublings;
    var cap;
    cap, doublings := RoundPow2(if bucketCount == 0 then 64 else bucketCount);
    var ok := TryAlloc(cap);
    if !ok {
      return null;
    }
    m := new StrMap(fnv1a, cap, doublings);
  }
}
