/**
 `cberg_u64map`: the open-addressing id map, one array of key/value slots with key 0
 as the empty mark. `Contents` is the map it stands for.
 */
module U64Maps {
  import opened Common
  import opened Probing

  datatype Slot = Slot(key: nat, value: nat)

  const EMPTY := Slot(0, 0)

  function Identity(k: nat): nat {
    k
  }

  class U64Map {
    /** `mix64`, the key mixer; every result below holds whatever it computes. */
    const mix64: nat -> nat

    var slots: array<Slot>
    var bucketCount: nat
    var count: nat

    ghost var Contents: map<nat, nat>
    ghost var Pos: map<nat, nat>
    ghost var Doublings: nat

    ghost function Repr(): set<object>
      reads this
    {
      {this, slots}
    }

    /** The slot array as one table: the key is its own mark. */
    ghost function T(s: seq<Slot>): (t: Table<nat>)
      ensures |t.marks| == |t.ks| == |t.vs| == |s| && t.marks == t.ks
      ensures forall i :: 0 <= i < |s| ==> t.ks[i] == s[i].key && t.vs[i] == s[i].value
    {
      var ks := seq(|s|, i requires 0 <= i < |s| => s[i].key);
      Table<nat>.Table(ks, ks, seq(|s|, i requires 0 <= i < |s| => s[i].value), mix64, Identity)
    }

    ghost predicate Valid()
      reads this, slots
    {
      && slots.Length == bucketCount == Capacity(Doublings)
      && Holds(T(slots[..]), Contents, Pos)
      && count == |Contents| && count * 4 < bucketCount * 3
      && 0 !in Contents
    }

    /** `cberg_u64map_new`, once its slots are allocated. */
    constructor (mix64: nat -> nat, buckets: nat, ghost doublings: nat)
      requires buckets == Capacity(doublings)
      ensures Valid() && fresh(Repr()) && Contents == map[] && this.mix64 == mix64
    {
      this.mix64 := mix64;
      var s := new Slot[buckets](_ => EMPTY);
      slots, bucketCount, count := s, buckets, 0;
      Contents, Pos, Doublings := map[], map[], doublings;
      new;
      FilledAllEmpty(T(slots[..]).marks);
    }

    /** The probe loop: the slot that holds `key`, or the empty slot where it would go. */
    method Probe(key: nat) returns (i: nat, found: bool)
      requires Valid() && key != 0
      ensures i < bucketCount && found == (key in Contents)
      ensures found ==> slots[i].key == key
      ensures !found ==> slots[i].key == 0 && WalkTaken(T(slots[..]).marks, Home(mix64(key), bucketCount), i)
    {
      ghost var home := Home(mix64(key), bucketCount);
      i := Home(mix64(key), bucketCount);
      ghost var t := T(slots[..]);
      ghost var e := EmptySlotExists(t.marks);
      while slots[i].key != 0
        invariant i < bucketCount
        invariant forall j {:trigger OnWalk(home, j, i)} ::
          0 <= j < bucketCount && OnWalk(home, j, i) ==> t.marks[j] != 0 && t.ks[j] != key
        decreases Distance(i, e, bucketCount)
      {
        assert SlotOk(t, Contents, Pos, i);
        if slots[i].key == key {
          return i, true;
        }
        NextOnWalk(home, i, bucketCount);
        i := Next(i, bucketCount);
      }
      WalkToEmptyIsAbsent(t, Contents, Pos, key, i);
      found := false;
    }

    /** `cberg_u64map_get`: key 0 is never found. */
    method Get(key: nat) returns (value: Option<nat>)
      requires Valid()
      ensures value == if key in Contents then Some(Contents[key]) else None
    {
      if key == 0 {
        return None;
      }
      var i, found := Probe(key);
      assert found ==> SlotOk(T(slots[..]), Contents, Pos, i);
      value := if found then Some(slots[i].value) else None;
    }

    /** Writes a binding into the empty slot its probe ended at. */
    method Fill(s: array<Slot>, i: nat, key: nat, value: nat, ghost m: map<nat, nat>, ghost pos: map<nat, nat>)
      requires Holds(T(s[..]), m, pos) && key != 0 && key !in m
      requires i < s.Length && s[i].key == 0 && WalkTaken(T(s[..]).marks, Home(mix64(key), s.Length), i)
      modifies s
      ensures Holds(T(s[..]), m[key := value], pos[key := i])
    {
      ghost var t := T(s[..]);
      FillSlot(t, m, pos, i, key, value);
      s[i] := Slot(key, value);
      assert T(s[..]) == FillAt(t, i, key, value);
    }

    /** One step of `u64map_resize`: probe the new slots from the mixed key and place the binding. */
    method Place(s: array<Slot>, key: nat, value: nat, ghost m: map<nat, nat>, ghost pos: map<nat, nat>) returns (ghost at: nat)
      requires key != 0 && key !in m && |m| < s.Length && Holds(T(s[..]), m, pos)
      modifies s
      ensures Holds(T(s[..]), m[key := value], pos[key := at])
    {
      ghost var t := T(s[..]);
      ghost var e := EmptySlotExists(t.marks);
      var j: nat := Home(mix64(key), s.Length);
      while s[j].key != 0
        invariant j < s.Length && WalkTaken(t.marks, Home(mix64(key), s.Length), j)
        invariant T(s[..]) == t
        decreases Distance(j, e, s.Length)
      {
        NextOnWalk(Home(mix64(key), s.Length), j, s.Length);
        j := Next(j, s.Length);
      }
      Fill(s, j, key, value, m, pos);
      at := j;
    }

    /** One round of the loop of `u64map_resize`: the binding of slot `i`, if it has one, moves over. */
    method MoveSlot(s: array<Slot>, i: nat, ghost moved: map<nat, nat>, ghost pos: map<nat, nat>) returns (ghost moved': map<nat, nat>, ghost pos': map<nat, nat>)
      requires Valid() && s != slots && s.Length > bucketCount && i < bucketCount
      requires Holds(T(s[..]), moved, pos) && Moved(Contents, Pos, moved, i)
      modifies s
      ensures Holds(T(s[..]), moved', pos') && Moved(Contents, Pos, moved', i + 1)
    {
      ghost var t := T(slots[..]);
      MovedStep(t, Contents, Pos, moved, i);
      moved', pos' := moved, pos;
      var k := slots[i].key;
      if k != 0 {
        ghost var at := Place(s, k, slots[i].value, moved, pos);
        moved', pos' := moved[t.ks[i] := t.vs[i]], pos[t.ks[i] := at];
      }
    }

    /** Slots that hold nothing yet. */
    method EmptySlots(n: nat) returns (s: array<Slot>)
      ensures fresh(s) && s.Length == n && Holds(T(s[..]), map[], map[])
    {
      s := new Slot[n](_ => EMPTY);
      FilledAllEmpty(T(s[..]).marks);
    }

    /** The loop of `u64map_resize`: fresh, larger slots into which every live slot has been placed. */
    method Rehash(newCount: nat) returns (s: array<Slot>, ghost pos: map<nat, nat>)
      requires Valid() && newCount > bucketCount
      ensures fresh(s) && s.Length == newCount && Holds(T(s[..]), Contents, pos)
    {
      s := EmptySlots(newCount);
      ghost var moved: map<nat, nat> := map[];
      pos := map[];
      for i := 0 to bucketCount
        invariant Holds(T(s[..]), moved, pos) && Moved(Contents, Pos, moved, i)
      {
        moved, pos := MoveSlot(s, i, moved, pos);
      }
      MovedAll(T(slots[..]), Contents, Pos, moved);
    }

    /** `u64map_resize`: a table twice the size with the same bindings, or no change at all. */
    method Resize() returns (st: Status)
      requires Valid()
      modifies this
      ensures Valid() && Contents == old(Contents)
      ensures st == Ok || st == OutOfMemory
      ensures st != Ok ==> unchanged(this)
      ensures st == Ok ==> bucketCount == 2 * old(bucketCount) && fresh(slots)
    {
      var ok := TryAlloc(4 * bucketCount);
      if !ok {
        return OutOfMemory;
      }
      var s;
      ghost var pos;
      s, pos := Rehash(2 * bucketCount);
      ghost var t := s[..];
      slots, bucketCount := s, 2 * bucketCount;
      Pos, Doublings := pos, Doublings + 1;
      assert slots[..] == t;
      return Ok;
    }

    /** The two writes of `cberg_u64map_set`: over a live slot, or into the empty slot the probe ended at. */
    method Write(i: nat, found: bool, key: nat, value: nat)
      requires Valid() && i < bucketCount && found == (key in Contents) && key != 0
      requires found ==> slots[i].key == key
      requires !found ==> slots[i].key == 0 && WalkTaken(T(slots[..]).marks, Home(mix64(key), bucketCount), i)
      requires !found ==> (count + 1) * 4 < bucketCount * 3
      modifies this, slots
      ensures Valid() && Contents == old(Contents)[key := value] && slots == old(slots)
    {
      if found {
        ghost var t := T(slots[..]);
        OverwriteSlot(t, Contents, Pos, i, value);
        slots[i] := Slot(key, value);
        Contents := Contents[key := value];
        assert T(slots[..]) == t.(vs := t.vs[i := value]);
      } else {
        Fill(slots, i, key, value, Contents, Pos);
        ghost var s := slots[..];
        Contents, Pos := Contents[key := value], Pos[key := i];
        count := count + 1;
        assert slots[..] == s;
      }
    }

    /** `cberg_u64map_set`: refuses key 0, else overwrites or adds one binding; a failed call changes no binding. */
    method Set(key: nat, value: nat) returns (st: Status)
      requires Valid()
      modifies Repr()
      ensures Valid() && fresh(Repr() - old(Repr()))
      ensures st == Ok || st == (if key == 0 then InvalidArgument else OutOfMemory)
      ensures key == 0 ==> st != Ok
      ensures Contents == if st == Ok then old(Contents)[key := value] else old(Contents)
      ensures key in old(Contents) ==> st == Ok
    {
      if key == 0 {
        return InvalidArgument;
      }
      var i, found := Probe(key);
      if !found && (count + 1) * 4 >= bucketCount * 3 {
        st := Resize();
        if st != Ok {
          return;
        }
        i, found := Probe(key);
      }
      Write(i, found, key, value);
      return Ok;
    }
  }

  /** `cberg_u64map_new`: null when an allocation fails. */
  method NewU64Map(mix64: nat -> nat, bucketCount: nat) returns (m: U64Map?)
    requires bucketCount <= SIZE_MAX
    ensures m != null ==> m.Valid() && fresh(m.Repr()) && m.Contents == map[]
  {
    ghost var doublings;
    var cap;
    cap, doublings := RoundPow2(if bucketCount == 0 then 64 else bucketCount);
    var ok := TryAlloc(2 * cap);
    if !ok {
      return null;
    }
    m := new U64Map(mix64, cap, doublings);
  }
}
