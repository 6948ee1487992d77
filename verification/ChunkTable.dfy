/**
 `cberg_chunk_table`: the rows of a repository with their key and id indexes. A sync builds the
 next table beside the live one and swaps it in, or fails and changes nothing. The two indexes are
 the maps that StrMaps and U64Maps prove the hash tables to be, with the same outcomes for a set.
 */
module ChunkTables {
  import opened Common
  import opened Sorting
  import opened TableSync
  import opened TableTheorems
  import opened Fingerprints

  /** The row an id names: the last one, as the id index has it. */
  ghost function RowOfIndex(rows: Rows, id: nat): (r: Option<nat>)
    ensures r.Some? ==> r.value < |rows| && rows[r.value].id == id
    ensures r.None? ==> forall i :: 0 <= i < |rows| ==> rows[i].id != id
  {
    if rows == [] then None
    else if rows[|rows| - 1].id == id then Some(|rows| - 1)
    else RowOfIndex(rows[..|rows| - 1], id)
  }

  /** The key index answers every key as a search of the rows would. */
  ghost predicate KeysIndexed(m: map<string, nat>, rows: Rows) {
    forall k {:trigger KeyIndexed(m, rows, k)} :: KeyIndexed(m, rows, k)
  }

  ghost predicate KeyIndexed(m: map<string, nat>, rows: Rows, k: string) {
    (if k in m then Some(m[k]) else None) == Find(rows, k)
  }

  ghost predicate IdsIndexed(m: map<nat, nat>, rows: Rows) {
    forall id {:trigger IdIndexed(m, rows, id)} :: IdIndexed(m, rows, id)
  }

  ghost predicate IdIndexed(m: map<nat, nat>, rows: Rows, id: nat) {
    (if id in m then Some(m[id]) else None) == RowOfIndex(rows, id)
  }

  lemma IndexAppended(ks: map<string, nat>, ids: map<nat, nat>, rows: Rows, row: Stored)
    requires KeysIndexed(ks, rows) && IdsIndexed(ids, rows)
    ensures KeysIndexed(ks[row.chunk.key := |rows|], rows + [row])
    ensures IdsIndexed(ids[row.id := |rows|], rows + [row])
  {
    assert (rows + [row])[..|rows|] == rows;
    forall k {:trigger KeyIndexed(ks[row.chunk.key := |rows|], rows + [row], k)} | true
      ensures KeyIndexed(ks[row.chunk.key := |rows|], rows + [row], k)
    {
      assert KeyIndexed(ks, rows, k);
    }
    forall id: nat {:trigger IdIndexed(ids[row.id := |rows|], rows + [row], id)} | true
      ensures IdIndexed(ids[row.id := |rows|], rows + [row], id)
    {
      assert IdIndexed(ids, rows, id);
    }
  }

  /** Replacing a row by one with its key and id moves nothing in either index. */
  lemma IndexReplaced(ks: map<string, nat>, ids: map<nat, nat>, rows: Rows, i: nat, row: Stored)
    requires KeysIndexed(ks, rows) && IdsIndexed(ids, rows)
    requires i < |rows| && rows[i].id == row.id && KeyOf(rows, i) == row.chunk.key
    ensures KeysIndexed(ks, rows[i := row]) && IdsIndexed(ids, rows[i := row])
  {
    forall k {:trigger KeyIndexed(ks, rows[i := row], k)} | true
      ensures KeyIndexed(ks, rows[i := row], k)
    {
      assert KeyIndexed(ks, rows, k);
      FindReplaced(rows, i, row, k);
    }
    forall id: nat {:trigger IdIndexed(ids, rows[i := row], id)} | true
      ensures IdIndexed(ids, rows[i := row], id)
    {
      assert IdIndexed(ids, rows, id);
      RowOfIndexReplaced(rows, i, row, id);
    }
  }

  lemma {:induction false} FindReplaced(rows: Rows, i: nat, row: Stored, k: string)
    requires i < |rows| && KeyOf(rows, i) == row.chunk.key
    ensures Find(rows[i := row], k) == Find(rows, k)
  {
    var n := |rows| - 1;
    if i == n {
      assert rows[i := row][..n] == rows[..n];
    } else {
      assert rows[i := row][..n] == rows[..n][i := row];
      FindReplaced(rows[..n], i, row, k);
    }
  }

  lemma {:induction false} RowOfIndexReplaced(rows: Rows, i: nat, row: Stored, id: nat)
    requires i < |rows| && rows[i].id == row.id
    ensures RowOfIndex(rows[i := row], id) == RowOfIndex(rows, id)
  {
    var n := |rows| - 1;
    if i == n {
      assert rows[i := row][..n] == rows[..n];
    } else {
      assert rows[i := row][..n] == rows[..n][i := row];
      RowOfIndexReplaced(rows[..n], i, row, id);
    }
  }

  /** A set on an index: it binds the key or, when an allocation fails, changes no binding. */
  method IndexSet<K(==)>(m: map<K, nat>, k: K, v: nat) returns (st: Status, m': map<K, nat>)
    ensures st == Ok || st == OutOfMemory
    ensures m' == if st == Ok then m[k := v] else m
  {
    var ok := TryAlloc(1);
    return if ok then Ok else OutOfMemory, if ok then m[k := v] else m;
  }

  function Chunks(batch: seq<Incoming>): (cs: seq<Chunk>)
    requires forall i :: 0 <= i < |batch| ==> batch[i].Some?
    ensures |cs| == |batch| && forall i :: 0 <= i < |batch| ==> cs[i] == batch[i].value
  {
    seq(|batch|, i requires 0 <= i < |batch| => batch[i].value)
  }

  class ChunkTable {
    const digest: seq<nat> -> Hash

    var entries: Rows
    var keyIndex: map<string, nat>
    var idIndex: map<nat, nat>
    var nextId: nat
    var fingerprint: Hash
    var arenaHasDeletions: bool

    var added: Rows
    var modified: Rows
    var deleted: Rows

    /** The indexes mirror the rows. */
    ghost predicate Indexed()
      reads this
    {
      KeysIndexed(keyIndex, entries) && IdsIndexed(idIndex, entries)
    }

    ghost predicate Valid()
      reads this
    {
      Indexed() && WellFormed(entries, nextId) && fingerprint == FingerprintOf(entries, digest)
    }

    /** `cberg_chunk_table_new`: no rows, and the first id is 1. */
    constructor (digest: seq<nat> -> Hash)
      ensures Valid() && entries == [] && nextId == 1 && this.digest == digest
      ensures added == [] && modified == [] && deleted == [] && !arenaHasDeletions
    {
      this.digest := digest;
      entries, keyIndex, idIndex, nextId, fingerprint, arenaHasDeletions := [], map[], map[], 1, ZERO_HASH, false;
      added, modified, deleted := [], [], [];
      new;
      assert forall k, k' :: IdsDiffer(map[], k, k');
    }

    /** `map_find`, and `cberg_chunk_table_find_by_key`. */
    method MapFind(key: string) returns (index: Option<nat>)
      requires Indexed()
      ensures index == Find(entries, key)
    {
      assert KeyIndexed(keyIndex, entries, key);
      index := if key in keyIndex then Some(keyIndex[key]) else None;
    }

    /** `cberg_chunk_table_find_by_id`: the live row of an id, if any. */
    method FindById(id: nat) returns (row: Option<Stored>)
      requires Indexed()
      ensures row.Some? ==> row.value in entries && row.value.id == id
      ensures row.None? ==> forall i :: 0 <= i < |entries| ==> entries[i].id != id
    {
      assert IdIndexed(idIndex, entries, id);
      row := if id in idIndex then Some(entries[idIndex[id]]) else None;
    }

    /**
     `table_append`: the row goes to the end and both indexes point at it. After a failure the row is
     gone again but an index may keep a stale entry, so the caller throws the table away.
     */
    method Append(row: Stored) returns (st: Status)
      requires Indexed()
      modifies this`entries, this`keyIndex, this`idIndex
      ensures st == Ok || st == OutOfMemory
      ensures st == Ok ==> Indexed() && entries == old(entries) + [row] && row.id != 0
    {
      IndexAppended(keyIndex, idIndex, entries, row);
      var index := |entries|;
      var ok := TryAlloc(index + 1);
      if !ok {
        return OutOfMemory;
      }
      st, keyIndex := IndexSet(keyIndex, row.chunk.key, index);
      if st != Ok {
        return;
      }
      if row.id == 0 {
        return OutOfMemory; // the id index refuses key 0
      }
      st, idIndex := IndexSet(idIndex, row.id, index);
      if st != Ok {
        return;
      }
      entries := entries + [row];
    }

    /** `table_recompute_fingerprint`. */
    method RecomputeFingerprint() returns (st: Status)
      modifies this`fingerprint
      ensures st == Ok || st == OutOfMemory
      ensures st == Ok && DistinctKeys(entries) ==> fingerprint == FingerprintOf(entries, digest)
      ensures st != Ok ==> fingerprint == old(fingerprint)
    {
      var fp;
      st, fp := ComputeFingerprint(entries, digest);
      if st == Ok {
        fingerprint := fp;
      }
    }

    /** `push_change_snap`. */
    method PushChange(list: Rows, row: Stored) returns (st: Status, list': Rows)
      ensures st == Ok || st == OutOfMemory
      ensures list' == if st == Ok then list + [row] else list
    {
      var ok := TryAlloc(|list| + 1);
      return if ok then Ok else OutOfMemory, if ok then list + [row] else list;
    }

    /** This table and the seen flags of the live one, as the state the diff is defined on. */
    ghost predicate Shows(n: Next)
      reads this
    {
      && Indexed()
      && entries == n.entries && nextId == n.nextId && added == n.added && modified == n.modified
    }

    /** `sync_apply_incoming`, with `this` as the table under construction. */
    method ApplyIncoming(live: ChunkTable, inc: Chunk, seen: array<bool>, ghost n: Next) returns (st: Status)
      requires live != this && live.Indexed() && seen.Length == |live.entries|
      requires Shows(n) && forall i :: 0 <= i < seen.Length ==> (seen[i] <==> i in n.seen)
      modifies this, seen
      ensures st == Ok || st == OutOfMemory
      ensures st == Ok ==> Shows(Apply(n, live.entries, inc))
      ensures st == Ok ==> forall i :: 0 <= i < seen.Length ==> (seen[i] <==> i in Apply(n, live.entries, inc).seen)
      ensures deleted == old(deleted)
    {
      var at := MapFind(inc.key);
      var liveAt := live.MapFind(inc.key);
      if liveAt.Some? {
        seen[liveAt.value] := true;
      }
      if at.Some? {
        st := TakeRepeated(at.value, inc, n);
      } else {
        st := TakeFirst(if liveAt.Some? then Some(live.entries[liveAt.value]) else None, inc);
      }
    }

    /** A key the batch has shown before: its row takes the new chunk under its id. */
    method TakeRepeated(at: nat, inc: Chunk, ghost n: Next) returns (st: Status)
      requires Shows(n) && at < |entries| && KeyOf(entries, at) == inc.key
      modifies this`entries, this`added, this`modified
      ensures st == Ok || st == OutOfMemory
      ensures st == Ok ==>
                var row := Stored(n.entries[at].id, inc);
                var a, m := FindId(n.added, row.id), FindId(n.modified, row.id);
                var touched := n.entries[at].chunk.hash != inc.hash;
                && Indexed() && entries == n.entries[at := row]
                && added == (if touched && a.Some? then n.added[a.value := row] else n.added)
                && modified == (if !touched || a.Some? then n.modified else if m.Some? then n.modified[m.value := row] else n.modified + [row])
    {
      var row := Stored(entries[at].id, inc);
      var hashChanged := entries[at].chunk.hash != inc.hash;
      var ok := TryAlloc(1);
      if !ok {
        return OutOfMemory;
      }
      IndexReplaced(keyIndex, idIndex, entries, at, row);
      entries := entries[at := row];
      if !hashChanged {
        return Ok;
      }
      st := RefreshOrPush(row);
    }

    /** A key's first chunk: a new row under the next id, or the live row's id with the old chunk unless its hash moved. */
    method TakeFirst(existing: Option<Stored>, inc: Chunk) returns (st: Status)
      requires Indexed()
      modifies this`entries, this`keyIndex, this`idIndex, this`nextId, this`added, this`modified
      ensures st == Ok || st == OutOfMemory
      ensures st == Ok ==> Indexed()
      ensures st == Ok && existing.None? ==>
                var row := Stored(old(nextId), inc);
                && entries == old(entries) + [row] && nextId == old(nextId) + 1
                && added == old(added) + [row] && modified == old(modified)
      ensures st == Ok && existing.Some? ==>
                var changed := existing.value.chunk.hash != inc.hash;
                var row := Stored(existing.value.id, if changed then inc else existing.value.chunk);
                && entries == old(entries) + [row] && nextId == old(nextId)
                && added == old(added) && modified == (if changed then old(modified) + [row] else old(modified))
    {
      var ok := TryAlloc(1);
      if existing.None? {
        var row := Stored(nextId, inc);
        nextId := nextId + 1;
        if !ok {
          return OutOfMemory;
        }
        st := Append(row);
        if st == Ok {
          st, added := PushChange(added, entries[|entries| - 1]);
        }
      } else {
        var hashChanged := existing.value.chunk.hash != inc.hash;
        if !ok {
          return OutOfMemory;
        }
        st := Append(Stored(existing.value.id, if hashChanged then inc else existing.value.chunk));
        if st == Ok && hashChanged {
          st, modified := PushChange(modified, entries[|entries| - 1]);
        }
      }
    }

    /** A repeated key: its change row is refreshed where there is one, else it becomes a modified row. */
    method RefreshOrPush(row: Stored) returns (st: Status)
      modifies this`added, this`modified
      ensures st == Ok || st == OutOfMemory
      ensures st == Ok ==>
                var a, m := FindId(old(added), row.id), FindId(old(modified), row.id);
                && added == (if a.Some? then old(added)[a.value := row] else old(added))
                && modified == (if a.Some? then old(modified) else if m.Some? then old(modified)[m.value := row] else old(modified) + [row])
    {
      var a := FindId(added, row.id);
      if a.Some? {
        added := added[a.value := row];
        return Ok;
      }
      var m := FindId(modified, row.id);
      if m.Some? {
        modified := modified[m.value := row];
        return Ok;
      }
      st, modified := PushChange(modified, row);
    }

    /** The first loop of a sync: every incoming chunk moves into `next`, unless a key is NULL or memory runs out. */
    method ApplyBatch(next: ChunkTable, batch: seq<Incoming>, seen: array<bool>) returns (st: Status)
      requires Valid() && next != this && next.Shows(Next([], nextId, [], [], {}))
      requires seen.Length == |entries| && forall i :: 0 <= i < seen.Length ==> !seen[i]
      modifies next, seen
      ensures st == Ok || st == OutOfMemory || (st == InvalidArgument && None in batch)
      ensures st == Ok ==> None !in batch && next.Shows(ApplyAll(entries, nextId, Chunks(batch)))
      ensures st == Ok ==> forall i :: 0 <= i < seen.Length ==> (seen[i] <==> i in ApplyAll(entries, nextId, Chunks(batch)).seen)
      ensures next.deleted == old(next.deleted)
    {
      ghost var cs: seq<Chunk> := [];
      for i := 0 to |batch|
        invariant |cs| == i && forall j :: 0 <= j < i ==> batch[j] == Some(cs[j])
        invariant Built(next, seen, cs)
        invariant next.deleted == old(next.deleted)
      {
        if batch[i].None? {
          return InvalidArgument;
        }
        st := ApplyOne(next, batch[i].value, seen, cs);
        if st != Ok {
          return;
        }
        cs := cs + [batch[i].value];
      }
      assert cs == Chunks(batch);
      assert Look(0);
      return Ok;
    }

    /** The next table and the seen flags are where the diff stands after `cs`. */
    ghost predicate Built(next: ChunkTable, seen: array<bool>, cs: seq<Chunk>)
      reads this, next, seen
    {
      forall n {:trigger Look(n)} :: Look(n) ==>
        && next.Shows(ApplyAll(entries, nextId, cs)) && seen.Length == |entries|
        && forall j :: 0 <= j < seen.Length ==> (seen[j] <==> j in ApplyAll(entries, nextId, cs).seen)
    }

    /** One round of the batch loop. */
    method ApplyOne(next: ChunkTable, inc: Chunk, seen: array<bool>, ghost cs: seq<Chunk>) returns (st: Status)
      requires Valid() && next != this && Built(next, seen, cs)
      modifies next, seen
      ensures st == Ok || st == OutOfMemory
      ensures st == Ok ==> Built(next, seen, cs + [inc])
      ensures next.deleted == old(next.deleted)
    {
      assert Look(0);
      ghost var n := ApplyAll(entries, nextId, cs);
      st := next.ApplyIncoming(this, inc, seen, n);
      assert (cs + [inc])[..|cs|] == cs;
      assert ApplyAll(entries, nextId, cs + [inc]) == Apply(n, entries, inc);
    }

    /** The second loop: every live row that was not seen is reported deleted, and `qsort` puts them in id order. */
    method CollectDeleted(next: ChunkTable, seen: array<bool>, ghost batch: seq<Chunk>) returns (st: Status)
      requires next != this && seen.Length == |entries| && next.deleted == [] && WellFormed(entries, nextId)
      requires forall i :: 0 <= i < seen.Length ==> (seen[i] <==> i in ApplyAll(entries, nextId, batch).seen)
      modifies next`deleted
      ensures st == Ok || st == OutOfMemory
      ensures st == Ok ==> next.deleted == Sort(Unseen(entries, ApplyAll(entries, nextId, batch).seen), ById)
    {
      ghost var flags := ApplyAll(entries, nextId, batch).seen;
      for i := 0 to |entries|
        invariant next.deleted == Unseen(entries[..i], flags)
      {
        assert entries[..i + 1][..i] == entries[..i];
        if !seen[i] {
          var ok := TryAlloc(1);
          if !ok {
            return OutOfMemory;
          }
          st, next.deleted := PushChange(next.deleted, entries[i]);
          if st != Ok {
            return;
          }
        }
      }
      assert entries[..|entries|] == entries;
      SortDeleted(entries, flags, nextId, batch);
      next.deleted := QSort(next.deleted, ById);
      SortedIsUnique(Sort(Unseen(entries, flags), ById), next.deleted, ById);
      return Ok;
    }

    /** `table_commit`. */
    method Commit(next: ChunkTable)
      requires next != this
      modifies this
      ensures entries == next.entries && keyIndex == next.keyIndex && idIndex == next.idIndex && nextId == next.nextId
      ensures fingerprint == next.fingerprint && arenaHasDeletions == (next.deleted != [])
      ensures added == next.added && modified == next.modified && deleted == next.deleted
    {
      entries, keyIndex, idIndex, nextId := next.entries, next.keyIndex, next.idIndex, next.nextId;
      fingerprint, arenaHasDeletions := next.fingerprint, |next.deleted| != 0;
      added, modified, deleted := next.added, next.modified, next.deleted;
    }

    /** The loop of `table_matches`. */
    method TableMatches(batch: seq<Incoming>) returns (matches: bool)
      requires Valid()
      ensures matches <==> Matches(entries, batch) && !arenaHasDeletions
    {
      if |batch| != |entries| || arenaHasDeletions {
        return false;
      }
      for i := 0 to |batch|
        invariant forall j :: 0 <= j < i ==>
                    batch[j].Some? && batch[j].value.key == KeyOf(entries, j) && batch[j].value.hash == entries[j].chunk.hash
      {
        if batch[i].None? || batch[i].value.key != entries[i].chunk.key || batch[i].value.hash != entries[i].chunk.hash {
          return false;
        }
      }
      return true;
    }

    /** Once the batch is applied: the deletions and the fingerprint. */
    method FinishNext(next: ChunkTable, seen: array<bool>, ghost cs: seq<Chunk>) returns (st: Status)
      requires Valid() && next != this && next.digest == digest && next.deleted == [] && next.Shows(ApplyAll(entries, nextId, cs)) && seen.Length == |entries|
      requires forall i :: 0 <= i < seen.Length ==> (seen[i] <==> i in ApplyAll(entries, nextId, cs).seen)
      modifies next
      ensures st == Ok || st == OutOfMemory
      ensures st == Ok ==> next.Indexed() && next.fingerprint == FingerprintOf(next.entries, digest)
      ensures st == Ok ==> Synced(next.entries, next.nextId, Changes(next.added, next.modified, next.deleted)) == Sync(entries, nextId, cs)
    {
      st := CollectDeleted(next, seen, cs);
      if st != Ok {
        return;
      }
      assert DistinctKeys(next.entries) by {
        SyncWellFormed(entries, nextId, cs);
      }
      ghost var rows := next.entries;
      st := next.RecomputeFingerprint();
      assert next.entries == rows;
    }

    /** The slow path up to the commit: a complete table beside the live one, or a failure. */
    method BuildNext(batch: seq<Incoming>) returns (st: Status, next: ChunkTable)
      requires Valid()
      ensures fresh(next)
      ensures st == Ok || st == OutOfMemory || (st == InvalidArgument && None in batch)
      ensures st == Ok ==> None !in batch && next.Indexed() && next.fingerprint == FingerprintOf(next.entries, digest)
      ensures st == Ok ==> Synced(next.entries, next.nextId, Changes(next.added, next.modified, next.deleted))
                           == Sync(entries, nextId, Chunks(batch))
    {
      next := new ChunkTable(digest);
      next.nextId := nextId;
      var ok := TryAlloc(|entries| + |batch|);
      if !ok {
        return OutOfMemory, next;
      }
      var seen := new bool[|entries|](_ => false);
      st := ApplyBatch(next, batch, seen);
      if st != Ok {
        return;
      }
      st := FinishNext(next, seen, Chunks(batch));
    }

    /** The fast path: a batch that matches the table changes nothing and reports nothing. */
    method SyncFast(batch: seq<Incoming>)
      requires Valid() && Matches(entries, batch) && !arenaHasDeletions
      modifies this`added, this`modified, this`deleted
      ensures Valid() && None !in batch
      ensures added == [] && modified == [] && deleted == []
      ensures Synced(entries, nextId, Changes([], [], [])) == Sync(entries, nextId, Chunks(batch))
    {
      FastPathAgrees(entries, nextId, Chunks(batch));
      added, modified, deleted := [], [], [];
    }

    /** The slow path: build the next table, then swap it in. */
    method SyncSlowly(batch: seq<Incoming>) returns (st: Status)
      requires Valid()
      modifies this
      ensures Valid()
      ensures st == Ok || st == OutOfMemory || (st == InvalidArgument && None in batch)
      ensures st == Ok ==> None !in batch && Synced(entries, nextId, Changes(added, modified, deleted)) == Sync(old(entries), old(nextId), Chunks(batch))
      ensures st == Ok ==> arenaHasDeletions == (deleted != [])
      ensures st != Ok ==> unchanged(this)
    {
      var next;
      st, next := BuildNext(batch);
      if st == Ok {
        SyncWellFormed(entries, nextId, Chunks(batch));
        Commit(next);
      }
    }

    /**
     `cberg_chunk_table_sync`: on OK the table and the change lists are exactly what the diff says,
     whether the fast path or the full diff ran; on any failure nothing at all has changed.
     */
    method SyncTable(batch: seq<Incoming>) returns (st: Status, changes: Changes)
      requires Valid()
      modifies this
      ensures Valid()
      ensures st == Ok || st == OutOfMemory || (st == InvalidArgument && None in batch)
      ensures st == Ok ==> None !in batch && Synced(entries, nextId, changes) == Sync(old(entries), old(nextId), Chunks(batch))
      ensures st == Ok ==> changes == Changes(added, modified, deleted) && arenaHasDeletions == (deleted != [])
      ensures st != Ok ==> unchanged(this)
    {
      changes := Changes([], [], []);
      var matches := TableMatches(batch);
      if matches {
        SyncFast(batch);
        return Ok, changes;
      }
      st := SyncSlowly(batch);
      if st == Ok {
        changes := Changes(added, modified, deleted);
      }
    }
  }

  lemma SyncWellFormed(live: Rows, nextId: nat, batch: seq<Chunk>)
    requires WellFormed(live, nextId)
    ensures WellFormed(ApplyAll(live, nextId, batch).entries, ApplyAll(live, nextId, batch).nextId)
  {
    SyncMeaning(live, nextId, batch);
  }

  /** The deleted rows have distinct ids, so sorting them by id has one outcome. */
  lemma SortDeleted(live: Rows, seen: set<nat>, nextId: nat, batch: seq<Chunk>)
    requires WellFormed(live, nextId) && seen == ApplyAll(live, nextId, batch).seen
    ensures TotalPreorder(ById)
    ensures var sorted := Sort(Unseen(live, seen), ById);
            SortedBy(sorted, ById) && multiset(sorted) == multiset(Unseen(live, seen)) && NoTies(sorted, ById)
  {
    var sorted := Sort(Unseen(live, seen), ById);
    SortSorts(Unseen(live, seen), ById);
    SyncChanges(live, nextId, batch);
    forall x, y | x in sorted && y in sorted && ById(x, y) && ById(y, x)
      ensures x == y
    {
      var i :| 0 <= i < |sorted| && sorted[i] == x;
      var j :| 0 <= j < |sorted| && sorted[j] == y;
      assert i == j by {
        assert forall a, b :: 0 <= a < b < |sorted| ==> sorted[a].id < sorted[b].id;
      }
    }
  }
}
