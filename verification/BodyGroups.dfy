/**
 The first two passes of `embed_unique`: rows with one body share a group, found through an
 8-byte hash prefix that is confirmed against the full hash, and each group's rows are laid
 out side by side.
 */
module BodyGroups {
  import opened Common
  import opened Scatter
  import opened TableSync
  import opened U64Maps

  /** The first of the first `n` rows with prefix `key`. */
  function FirstWith(ps: seq<nat>, n: nat, key: nat): (r: Option<nat>)
    requires n <= |ps|
    ensures r.Some? ==> r.value < n && ps[r.value] == key
    ensures r.None? ==> forall i :: 0 <= i < n ==> ps[i] != key
  {
    if n == 0 then None
    else
      var r := FirstWith(ps, n - 1, key);
      if r.Some? then r
      else if ps[n - 1] == key then Some(n - 1)
      else None
  }

  /**
   The row that stands for row `u`: the first row with its prefix when their full hashes agree; itself
   when they collide, and when the prefix is zero, which the map reserves.
   */
  function RepOf(hs: seq<Hash>, ps: seq<nat>, u: nat): (r: nat)
    requires |hs| == |ps| && u < |hs|
    ensures r <= u && hs[r] == hs[u]
  {
    if ps[u] == 0 then u
    else
      var f := FirstWith(ps, u + 1, ps[u]);
      if hs[f.value] == hs[u] then f.value else u
  }

  lemma {:induction false} FirstStays(ps: seq<nat>, n: nat, n': nat, key: nat)
    requires n <= n' <= |ps| && FirstWith(ps, n, key).Some?
    ensures FirstWith(ps, n', key) == FirstWith(ps, n, key)
  {
    if n < n' {
      FirstStays(ps, n, n' - 1, key);
    }
  }

  /** A representative represents itself. */
  lemma RepOfRep(hs: seq<Hash>, ps: seq<nat>, u: nat)
    requires |hs| == |ps| && u < |hs|
    ensures RepOf(hs, ps, RepOf(hs, ps, u)) == RepOf(hs, ps, u)
  {
    var r := RepOf(hs, ps, u);
    if r != u {
      FirstStays(ps, r + 1, u + 1, ps[u]);
    }
  }

  /** Two rows share a representative exactly when nothing stops the prefix map from matching them. */
  lemma SharesExactlyWhen(hs: seq<Hash>, ps: seq<nat>, u: nat, v: nat)
    requires |hs| == |ps| && u < v < |hs| && (hs[u] == hs[v] ==> ps[u] == ps[v])
    ensures RepOf(hs, ps, u) == RepOf(hs, ps, v)
       <==> hs[u] == hs[v] && ps[u] != 0 && hs[FirstWith(ps, u + 1, ps[u]).value] == hs[u]
  {
    FirstStays(ps, u + 1, v + 1, ps[u]);
  }

  function Hashes(rows: Rows): (hs: seq<Hash>)
    ensures |hs| == |rows| && forall i :: 0 <= i < |rows| ==> hs[i] == rows[i].chunk.hash
  {
    seq(|rows|, i requires 0 <= i < |rows| => rows[i].chunk.hash)
  }

  function Prefixes(hs: seq<Hash>, prefix: Hash -> nat): (ps: seq<nat>)
    ensures |ps| == |hs| && forall i :: 0 <= i < |hs| ==> ps[i] == prefix(hs[i])
  {
    seq(|hs|, i requires 0 <= i < |hs| => prefix(hs[i]))
  }

  // ---- Pass 1 ----

  /** Row `u` is in the group of its representative. */
  ghost predicate InGroup(hs: seq<Hash>, ps: seq<nat>, reps: seq<nat>, groupOf: seq<nat>, u: nat)
    requires |hs| == |ps|
  {
    && u < |groupOf| && u < |hs| && groupOf[u] < |reps|
    && reps[groupOf[u]] == RepOf(hs, ps, u)
  }

  /** Group `g` stands for a row that represents itself, later than every earlier group's. */
  ghost predicate IsRep(hs: seq<Hash>, ps: seq<nat>, reps: seq<nat>, n: nat, g: nat)
    requires |hs| == |ps|
  {
    && g < |reps| && reps[g] < n && n <= |hs|
    && RepOf(hs, ps, reps[g]) == reps[g]
    && (g > 0 ==> reps[g - 1] < reps[g])
  }

  ghost predicate Grouped(hs: seq<Hash>, ps: seq<nat>, reps: seq<nat>, groupOf: seq<nat>, n: nat)
    requires |hs| == |ps|
  {
    && (forall u {:trigger InGroup(hs, ps, reps, groupOf, u)} :: 0 <= u < n ==> InGroup(hs, ps, reps, groupOf, u))
    && (forall g {:trigger IsRep(hs, ps, reps, n, g)} :: 0 <= g < |reps| ==> IsRep(hs, ps, reps, n, g))
  }

  /** What the prefix map knows of one prefix after `n` rows: the group of the first row that had it. */
  ghost predicate SeenOk(seen: map<nat, nat>, ps: seq<nat>, reps: seq<nat>, n: nat, key: nat)
    requires n <= |ps|
  {
    if key in seen then seen[key] < |reps| && FirstWith(ps, n, key) == Some(reps[seen[key]])
    else key == 0 || FirstWith(ps, n, key) == None
  }

  ghost predicate AllSeenOk(seen: map<nat, nat>, ps: seq<nat>, reps: seq<nat>, n: nat)
    requires n <= |ps|
  {
    forall key {:trigger SeenOk(seen, ps, reps, n, key)} :: SeenOk(seen, ps, reps, n, key)
  }

  /** The row joins the group its prefix is recorded for. */
  lemma JoinGroup(hs: seq<Hash>, ps: seq<nat>, reps: seq<nat>, groupOf: seq<nat>, seen: map<nat, nat>, u: nat)
    requires |hs| == |ps| && u < |hs| && |groupOf| == |hs| && Grouped(hs, ps, reps, groupOf, u) && AllSeenOk(seen, ps, reps, u)
    requires ps[u] != 0 && ps[u] in seen && seen[ps[u]] < |reps| && reps[seen[ps[u]]] < |hs| && hs[reps[seen[ps[u]]]] == hs[u]
    ensures Grouped(hs, ps, reps, groupOf[u := seen[ps[u]]], u + 1) && AllSeenOk(seen, ps, reps, u + 1)
  {
    var g := groupOf[u := seen[ps[u]]];
    assert SeenOk(seen, ps, reps, u, ps[u]);
    forall v {:trigger InGroup(hs, ps, reps, g, v)} | 0 <= v < u + 1
      ensures InGroup(hs, ps, reps, g, v)
    {
      assert v < u ==> InGroup(hs, ps, reps, groupOf, v);
    }
    forall k {:trigger IsRep(hs, ps, reps, u + 1, k)} | 0 <= k < |reps|
      ensures IsRep(hs, ps, reps, u + 1, k)
    {
      assert IsRep(hs, ps, reps, u, k);
    }
    forall key {:trigger SeenOk(seen, ps, reps, u + 1, key)} | true
      ensures SeenOk(seen, ps, reps, u + 1, key)
    {
      assert SeenOk(seen, ps, reps, u, key);
    }
  }

  /** The row starts a group of its own, recorded only when its prefix is new and not zero. */
  lemma OpenGroup(hs: seq<Hash>, ps: seq<nat>, reps: seq<nat>, groupOf: seq<nat>, seen: map<nat, nat>, u: nat)
    requires |hs| == |ps| && u < |hs| && |groupOf| == |hs| && Grouped(hs, ps, reps, groupOf, u) && AllSeenOk(seen, ps, reps, u)
    requires ps[u] != 0 && ps[u] in seen && seen[ps[u]] < |reps| && reps[seen[ps[u]]] < |hs| ==> hs[reps[seen[ps[u]]]] != hs[u]
    ensures var seen' := if ps[u] != 0 && ps[u] !in seen then seen[ps[u] := |reps|] else seen;
            Grouped(hs, ps, reps + [u], groupOf[u := |reps|], u + 1) && AllSeenOk(seen', ps, reps + [u], u + 1)
  {
    var seen' := if ps[u] != 0 && ps[u] !in seen then seen[ps[u] := |reps|] else seen;
    var g, r := groupOf[u := |reps|], reps + [u];
    assert SeenOk(seen, ps, reps, u, ps[u]);
    if ps[u] != 0 && ps[u] in seen {
      assert FirstWith(ps, u + 1, ps[u]) == Some(reps[seen[ps[u]]]);
    }
    assert RepOf(hs, ps, u) == u;
    forall v {:trigger InGroup(hs, ps, r, g, v)} | 0 <= v < u + 1
      ensures InGroup(hs, ps, r, g, v)
    {
      assert v < u ==> InGroup(hs, ps, reps, groupOf, v);
    }
    forall k {:trigger IsRep(hs, ps, r, u + 1, k)} | 0 <= k < |r|
      ensures IsRep(hs, ps, r, u + 1, k)
    {
      assert k < |reps| ==> IsRep(hs, ps, reps, u, k);
      assert 0 < k == |reps| ==> IsRep(hs, ps, reps, u, k - 1);
    }
    forall key {:trigger SeenOk(seen', ps, r, u + 1, key)} | true
      ensures SeenOk(seen', ps, r, u + 1, key)
    {
      assert SeenOk(seen, ps, reps, u, key);
    }
  }

  /** The prefix map is sound and knows what the first `n` rows taught it. */
  ghost predicate Knows(seen: U64Map, ps: seq<nat>, reps: seq<nat>, n: nat)
    requires n <= |ps|
    reads seen, seen.Repr()
  {
    forall k {:trigger Look(k)} :: Look(k) ==> seen.Valid() && AllSeenOk(seen.Contents, ps, reps, n)
  }

  /** One row of pass 1: the group it joins or opens, and what the prefix map then records. */
  method GroupRow(seen: U64Map, rows: Rows, key: nat, u: nat, reps: seq<nat>, ghost ps: seq<nat>, ghost groupOf: seq<nat>)
    returns (st: Status, group: nat)
    requires u < |rows| == |ps| == |groupOf| && key == ps[u]
    requires Grouped(Hashes(rows), ps, reps, groupOf, u) && Knows(seen, ps, reps, u)
    modifies seen.Repr()
    ensures fresh(seen.Repr() - old(seen.Repr())) && group <= |reps|
    ensures st == Ok ==>
              var reps' := if group < |reps| then reps else reps + [u];
              Grouped(Hashes(rows), ps, reps', groupOf[u := group], u + 1) && Knows(seen, ps, reps', u + 1)
  {
    assert Look(0);
    var hash := rows[u].chunk.hash;
    var hit := None;
    if key != 0 {
      hit := seen.Get(key);
    }
    assert SeenOk(seen.Contents, ps, reps, u, key);
    if hit.Some? && rows[reps[hit.value]].chunk.hash == hash {
      JoinGroup(Hashes(rows), ps, reps, groupOf, seen.Contents, u);
      return Ok, hit.value;
    }
    OpenGroup(Hashes(rows), ps, reps, groupOf, seen.Contents, u);
    group := |reps|;
    st := Ok;
    if key != 0 && hit.None? {
      st := seen.Set(key, |reps|);
    }
  }

  /** `GroupRow`, and the row's entry in `group_of`. */
  method AssignRow(seen: U64Map, rows: Rows, key: nat, u: nat, reps: seq<nat>, groupOf: array<nat>, ghost ps: seq<nat>)
    returns (st: Status, reps': seq<nat>)
    requires groupOf !in seen.Repr() && u < |rows| == |ps| == groupOf.Length && key == ps[u]
    requires Grouped(Hashes(rows), ps, reps, groupOf[..], u) && Knows(seen, ps, reps, u)
    modifies seen.Repr(), groupOf
    ensures fresh(seen.Repr() - old(seen.Repr())) && groupOf !in seen.Repr()
    ensures st == Ok ==> Grouped(Hashes(rows), ps, reps', groupOf[..], u + 1) && Knows(seen, ps, reps', u + 1)
  {
    ghost var g: seq<nat> := groupOf[..];
    var group;
    st, group := GroupRow(seen, rows, key, u, reps, ps, g);
    reps' := if group < |reps| then reps else reps + [u];
    groupOf[u] := group;
    assert groupOf[..] == g[u := group];
  }

  /** The loop of pass 1. */
  method AssignRows(seen: U64Map, rows: Rows, prefix: Hash -> nat, groupOf: array<nat>, ghost ps: seq<nat>) returns (st: Status, reps: seq<nat>)
    requires ps == Prefixes(Hashes(rows), prefix) && Knows(seen, ps, [], 0) && groupOf !in seen.Repr() && groupOf.Length == |rows|
    modifies seen.Repr(), groupOf
    ensures st == Ok ==> Grouped(Hashes(rows), ps, reps, groupOf[..], |rows|)
  {
    reps := [];
    for u := 0 to |rows|
      invariant fresh(seen.Repr() - old(seen.Repr())) && groupOf !in seen.Repr()
      invariant Grouped(Hashes(rows), ps, reps, groupOf[..], u) && Knows(seen, ps, reps, u)
    {
      st, reps := AssignRow(seen, rows, prefix(rows[u].chunk.hash), u, reps, groupOf, ps);
      if st != Ok {
        return;
      }
    }
    st := Ok;
  }

  /** Pass 1: one group per representative. */
  method AssignGroups(rows: Rows, prefix: Hash -> nat, mix64: nat -> nat) returns (st: Status, reps: seq<nat>, groupOf: array<nat>)
    ensures fresh(groupOf)
    ensures st == Ok ==> groupOf.Length == |rows|
    ensures st == Ok ==> Grouped(Hashes(rows), Prefixes(Hashes(rows), prefix), reps, groupOf[..], |rows|)
  {
    reps := [];
    groupOf := new nat[|rows|];
    var ok := TryAlloc(2 * |rows|);
    if !ok {
      return OutOfMemory, reps, groupOf;
    }
    var seen := NewU64Map(mix64, 2 * |rows|);
    if seen == null {
      return OutOfMemory, reps, groupOf;
    }
    ghost var ps := Prefixes(Hashes(rows), prefix);
    assert AllSeenOk(map[], ps, [], 0);
    st, reps := AssignRows(seen, rows, prefix, groupOf, ps);
  }

  // ---- Pass 2 ----

  /** Counts shifted up by one, as `group_start[group_of[u] + 1]++` leaves them. */
  method CountGroups(groupOf: array<nat>, groupStart: array<nat>)
    requires groupStart.Length > 0 && KeysBelow(groupOf[..], groupStart.Length - 1) && groupStart != groupOf
    requires forall k :: 0 <= k < groupStart.Length ==> groupStart[k] == 0
    modifies groupStart
    ensures groupStart[0] == 0 && CountsFrom(groupStart[..][1..], groupOf[..], groupOf.Length, 0)
  {
    ghost var keys := groupOf[..];
    assert CountsFrom(groupStart[1..], keys, 0, 0) by {
      assert forall k :: 0 <= k < |groupStart[1..]| ==> CountIs(groupStart[1..], keys, 0, k);
    }
    for u := 0 to groupOf.Length
      invariant groupOf[..] == keys && groupStart[0] == 0 && CountsFrom(groupStart[1..], keys, u, 0)
    {
      CountOne(groupStart[1..], keys, u);
      ghost var c := groupStart[1..];
      groupStart[groupOf[u] + 1] := groupStart[groupOf[u] + 1] + 1;
      assert groupStart[1..] == c[keys[u] := c[keys[u]] + 1];
    }
    assert groupStart[..][1..] == groupStart[1..];
  }

  lemma StartOne(starts: seq<nat>, keys: seq<nat>, k: nat)
    requires k + 1 < |starts| && StartsTo(starts, keys, k + 1) && CountsFrom(starts[1..], keys, |keys|, k)
    ensures starts[k] == Start(keys, k)
    ensures StartsTo(starts[k + 1 := starts[k + 1] + starts[k]], keys, k + 2)
    ensures CountsFrom(starts[k + 1 := starts[k + 1] + starts[k]][1..], keys, |keys|, k + 1)
  {
    assert StartIs(starts, keys, k);
    assert CountIs(starts[1..], keys, |keys|, k);
    var s := starts[k + 1 := starts[k + 1] + starts[k]];
    forall j {:trigger StartIs(s, keys, j)} | 0 <= j < k + 2
      ensures StartIs(s, keys, j)
    {
      assert j < k + 1 ==> StartIs(starts, keys, j);
    }
    forall j {:trigger CountIs(s[1..], keys, |keys|, j)} | k + 1 <= j < |s[1..]|
      ensures CountIs(s[1..], keys, |keys|, j)
    {
      assert CountIs(starts[1..], keys, |keys|, j);
    }
  }

  lemma CursorStarts(cursor: seq<nat>, keys: seq<nat>, k: nat)
    requires k < |cursor| && CursorsBelow(cursor, keys, 0, k)
    ensures CursorsBelow(cursor[k := Start(keys, k)], keys, 0, k + 1)
  {
    var c := cursor[k := Start(keys, k)];
    forall j {:trigger CursorIs(c, keys, 0, j)} | 0 <= j < k + 1
      ensures CursorIs(c, keys, 0, j)
    {
      assert j < k ==> CursorIs(cursor, keys, 0, j);
    }
  }

  /** Running totals turn the counts into starts, and each cursor begins at its group's start. */
  method StartGroups(ghost keys: seq<nat>, groupStart: array<nat>, cursor: array<nat>)
    requires groupStart.Length == cursor.Length + 1 && groupStart != cursor
    requires groupStart[0] == 0 && CountsFrom(groupStart[..][1..], keys, |keys|, 0)
    modifies groupStart, cursor
    ensures StartsTo(groupStart[..], keys, groupStart.Length)
    ensures CursorsBelow(cursor[..], keys, 0, cursor.Length)
  {
    assert StartsTo(groupStart[..], keys, 1) by {
      assert StartIs(groupStart[..], keys, 0);
    }
    for k := 0 to cursor.Length
      invariant StartsTo(groupStart[..], keys, k + 1) && CountsFrom(groupStart[..][1..], keys, |keys|, k)
      invariant CursorsBelow(cursor[..], keys, 0, k)
    {
      ghost var s, c: seq<nat> := groupStart[..], cursor[..];
      StartOne(s, keys, k);
      CursorStarts(c, keys, k);
      groupStart[k + 1] := groupStart[k + 1] + groupStart[k];
      assert groupStart[..] == s[k + 1 := s[k + 1] + s[k]];
      cursor[k] := groupStart[k];
      assert cursor[..] == c[k := s[k]];
    }
  }

  /** `members[cursor[group_of[u]]++] = u`. */
  method FillMembers(groupOf: array<nat>, cursor: array<nat>, members: array<nat>)
    requires members.Length == groupOf.Length && KeysBelow(groupOf[..], cursor.Length)
    requires groupOf != cursor && groupOf != members && cursor != members
    requires CursorsBelow(cursor[..], groupOf[..], 0, cursor.Length)
    modifies cursor, members
    ensures Scattered(members[..], groupOf[..], cursor.Length)
  {
    ghost var keys: seq<nat> := groupOf[..];
    assert AllPlaced(members[..], keys, 0, cursor.Length) by {
      forall k {:trigger Placed(members[..], keys, 0, k)} | 0 <= k < cursor.Length
        ensures Placed(members[..], keys, 0, k)
      {
        StartWithin(keys, cursor.Length, k);
      }
    }
    for u := 0 to groupOf.Length
      invariant groupOf[..] == keys && CursorsBelow(cursor[..], keys, u, cursor.Length)
      invariant AllPlaced(members[..], keys, u, cursor.Length)
    {
      PlaceOne(members[..], keys, u, cursor.Length);
      CursorOne(cursor[..], keys, u);
      ghost var c, o: seq<nat> := cursor[..], members[..];
      var k := groupOf[u];
      assert CursorIs(c, keys, u, k);
      members[cursor[k]] := u;
      cursor[k] := cursor[k] + 1;
      assert members[..] == o[c[k] := u] && cursor[..] == c[k := c[k] + 1];
    }
  }

  /** Pass 2: every group's rows side by side, group `k` at `group_start[k]`. */
  method LayOut(groupOf: array<nat>, nGroups: nat) returns (st: Status, groupStart: array<nat>, members: array<nat>)
    requires KeysBelow(groupOf[..], nGroups)
    ensures fresh(groupStart) && fresh(members)
    ensures st == Ok ==> groupStart.Length == nGroups + 1 && StartsTo(groupStart[..], groupOf[..], nGroups + 1)
    ensures st == Ok ==> Scattered(members[..], groupOf[..], nGroups)
  {
    groupStart := new nat[nGroups + 1](_ => 0);
    members := new nat[groupOf.Length];
    var cursor := new nat[nGroups];
    var ok := TryAlloc(2 * nGroups + 1 + groupOf.Length);
    if !ok {
      return OutOfMemory, groupStart, members;
    }
    CountGroups(groupOf, groupStart);
    StartGroups(groupOf[..], groupStart, cursor);
    FillMembers(groupOf, cursor, members);
    st := Ok;
  }

  /** Groups in the terms the scatter needs: keys in range, each group's rows with its representative's hash. */
  ghost predicate SameBody(rows: Rows, reps: seq<nat>, groupOf: seq<nat>, u: nat) {
    && u < |rows| == |groupOf| && groupOf[u] < |reps| && reps[groupOf[u]] < |rows|
    && rows[reps[groupOf[u]]].chunk.hash == rows[u].chunk.hash
  }

  ghost predicate SharedBodies(rows: Rows, reps: seq<nat>, groupOf: seq<nat>) {
    && KeysBelow(groupOf, |reps|) && |groupOf| == |rows|
    && (forall u {:trigger SameBody(rows, reps, groupOf, u)} :: 0 <= u < |rows| ==> SameBody(rows, reps, groupOf, u))
    && (forall g :: 0 <= g < |reps| ==> reps[g] < |rows|)
  }

  /** A vector is shared only between rows with equal full hashes. */
  lemma GroupsShareBodies(rows: Rows, ps: seq<nat>, reps: seq<nat>, groupOf: seq<nat>)
    requires |ps| == |rows| == |groupOf| && Grouped(Hashes(rows), ps, reps, groupOf, |rows|)
    ensures SharedBodies(rows, reps, groupOf)
  {
    forall u {:trigger SameBody(rows, reps, groupOf, u)} | 0 <= u < |rows|
      ensures SameBody(rows, reps, groupOf, u)
    {
      assert InGroup(Hashes(rows), ps, reps, groupOf, u);
    }
    forall g | 0 <= g < |reps|
      ensures reps[g] < |rows|
    {
      assert IsRep(Hashes(rows), ps, reps, |rows|, g);
    }
    forall u | 0 <= u < |rows|
      ensures groupOf[u] < |reps|
    {
      assert SameBody(rows, reps, groupOf, u);
    }
  }
}
