/**
 Keeping the vector index in step with the chunk table: incremental application of a
 table diff, bounded retries, and a rebuild in place or through a temporary file. Every
 call into the index may fail, with or without effect.
 */
module VectorSync {
  import opened Common
  import opened Scatter
  import opened TableSync
  import opened TableTheorems
  import opened BodyGroups
  import opened VectorIndexes
  import opened EmbedUnique
  import opened ChunkTables

  // ---- Agreement ----

  /** The index holds every row of the table, with the vector of the row's body. */
  ghost predicate HasAll(eng: Engine, m: Vectors, rows: Keyed) {
    forall k :: k in rows ==> rows[k].id in m && m[rows[k].id] == eng.VectorOf(rows[k])
  }

  /** The index holds no id that is not a row's. */
  ghost predicate OnlyIds(m: Vectors, rows: Keyed) {
    forall id :: id in m ==> IsId(rows, id)
  }

  /** The index holds exactly the table's ids, each with the vector of its row's body. */
  ghost predicate Agrees(eng: Engine, m: Vectors, rows: Keyed) {
    HasAll(eng, m, rows) && OnlyIds(m, rows)
  }

  /** What a refill leaves: every row, and no other id exactly when what it found in place held none. */
  ghost predicate Refilled(eng: Engine, m: Vectors, rows: Keyed, leftover: Vectors) {
    HasAll(eng, m, rows) && (OnlyIds(m, rows) <==> OnlyIds(leftover, rows))
  }

  ghost predicate IsId(rows: Keyed, id: nat) {
    exists k :: k in rows && rows[k].id == id
  }

  /** The rows a diff upserts, in the order they are embedded. */
  function Upserts(ch: Changes): Rows {
    ch.added + ch.modified
  }

  /** The ids a diff may touch. */
  function ChangedIds(ch: Changes): set<nat> {
    Ids(Upserts(ch)) + Ids(ch.deleted)
  }

  /** `m` is the index `m0` with the diff carried out. */
  ghost predicate Applied(eng: Engine, m0: Vectors, m: Vectors, ch: Changes) {
    && Elsewhere(m0, m, ChangedIds(ch))
    && (forall u {:trigger HasRow(eng, m, Upserts(ch), u)} :: 0 <= u < |Upserts(ch)| ==> HasRow(eng, m, Upserts(ch), u))
    && (forall i :: 0 <= i < |ch.deleted| ==> ch.deleted[i].id !in m)
  }

  lemma RowOfKey(rows: Rows, k: string) returns (i: nat)
    requires k in ByKey(rows)
    ensures i < |rows| && rows[i] == ByKey(rows)[k]
  {
    var r := Find(rows, k);
    i := r.value;
  }

  lemma KeyOfId(rows: Rows, id: nat) returns (k: string)
    requires DistinctKeys(rows) && id in Ids(rows)
    ensures k in ByKey(rows) && ByKey(rows)[k].id == id
  {
    var i :| 0 <= i < |rows| && rows[i].id == id;
    RowAt(rows, i);
    k := KeyOf(rows, i);
  }

  lemma IdsOfKey(rows: Rows, k: string)
    requires k in ByKey(rows)
    ensures ByKey(rows)[k].id in Ids(rows)
  {
    var i := RowOfKey(rows, k);
  }

  /** A successful application of a sync's diff carries both halves of agreement from the old table to the new one. */
  lemma AppliedAgrees(eng: Engine, live: Rows, nextId: nat, s: Synced, m0: Vectors, m: Vectors)
    requires WellFormed(live, nextId) && WellFormed(s.entries, s.nextId) && ChangesCover(live, s)
    requires forall k :: k in ByKey(s.entries) && k in ByKey(live) ==> ByKey(s.entries)[k].id == ByKey(live)[k].id
    requires forall k :: k in ByKey(s.entries) && k !in ByKey(live) ==> nextId <= ByKey(s.entries)[k].id
    requires Applied(eng, m0, m, s.changes)
    ensures HasAll(eng, m0, ByKey(live)) ==> HasAll(eng, m, ByKey(s.entries))
    ensures OnlyIds(m0, ByKey(live)) ==> OnlyIds(m, ByKey(s.entries))
  {
    var r := ByKey(s.entries);
    if HasAll(eng, m0, ByKey(live)) {
      forall k | k in r
        ensures r[k].id in m && m[r[k].id] == eng.VectorOf(r[k])
      {
        RowAgrees(eng, live, nextId, s, m0, m, k);
      }
    }
    if OnlyIds(m0, ByKey(live)) {
      forall id | id in m
        ensures IsId(r, id)
      {
        IdAgrees(eng, live, s, m0, m, id);
      }
    }
  }

  lemma OneKey(m: Keyed, k: string, k': string)
    requires IdsDistinct(m) && k in m && k' in m
    ensures m[k].id == m[k'].id ==> k == k'
  {
    assert IdsDiffer(m, k, k');
  }

  /** Which ids a diff touches, in terms of keys. */
  lemma ChangedKey(live: Rows, s: Synced, id: nat) returns (k: string)
    requires ChangesCover(live, s) && id in ChangedIds(s.changes)
    ensures var (a, m, d) := (ByKey(s.changes.added), ByKey(s.changes.modified), ByKey(s.changes.deleted));
            (k in a && a[k].id == id) || (k in m && m[k].id == id) || (k in d && d[k].id == id)
  {
    if id in Ids(s.changes.deleted) {
      k := KeyOfId(s.changes.deleted, id);
    } else {
      var i :| 0 <= i < |Upserts(s.changes)| && Upserts(s.changes)[i].id == id;
      if i < |s.changes.added| {
        assert s.changes.added[i].id in Ids(s.changes.added);
        k := KeyOfId(s.changes.added, id);
      } else {
        assert s.changes.modified[i - |s.changes.added|].id in Ids(s.changes.modified);
        k := KeyOfId(s.changes.modified, id);
      }
    }
  }

  /** A list row's vector reached the index. */
  lemma UpsertHas(eng: Engine, ch: Changes, m0: Vectors, m: Vectors, k: string)
    requires Applied(eng, m0, m, ch) && (k in ByKey(ch.added) || k in ByKey(ch.modified))
    ensures var row := if k in ByKey(ch.added) then ByKey(ch.added)[k] else ByKey(ch.modified)[k];
            row.id in m && m[row.id] == eng.VectorOf(row)
  {
    if k in ByKey(ch.added) {
      var i := RowOfKey(ch.added, k);
      assert HasRow(eng, m, Upserts(ch), i);
    } else {
      var i := RowOfKey(ch.modified, k);
      assert Upserts(ch)[|ch.added| + i] == ch.modified[i];
      assert HasRow(eng, m, Upserts(ch), |ch.added| + i);
    }
  }

  lemma RowAgrees(eng: Engine, live: Rows, nextId: nat, s: Synced, m0: Vectors, m: Vectors, k: string)
    requires WellFormed(live, nextId) && WellFormed(s.entries, s.nextId) && ChangesCover(live, s)
    requires forall k :: k in ByKey(s.entries) && k in ByKey(live) ==> ByKey(s.entries)[k].id == ByKey(live)[k].id
    requires HasAll(eng, m0, ByKey(live)) && Applied(eng, m0, m, s.changes) && k in ByKey(s.entries)
    ensures var row := ByKey(s.entries)[k];
            row.id in m && m[row.id] == eng.VectorOf(row)
  {
    var l, r := ByKey(live), ByKey(s.entries);
    if k in ByKey(s.changes.added) || k in ByKey(s.changes.modified) {
      UpsertHas(eng, s.changes, m0, m, k);
    } else {
      var id := r[k].id;
      assert k in l && l[k].id == id && l[k].chunk.hash == r[k].chunk.hash;
      if id in ChangedIds(s.changes) {
        var k' := ChangedKey(live, s, id);
        if k' in r {
          OneKey(r, k, k');
        } else {
          OneKey(l, k, k');
        }
      }
    }
  }

  /** An id a diff touched and the index still holds is an upserted row's. */
  lemma TouchedIdAgrees(eng: Engine, live: Rows, s: Synced, m0: Vectors, m: Vectors, id: nat)
    requires ChangesCover(live, s) && Applied(eng, m0, m, s.changes) && id in m && id in ChangedIds(s.changes)
    ensures IsId(ByKey(s.entries), id)
  {
    var k := ChangedKey(live, s, id);
    if k in ByKey(s.changes.deleted) && ByKey(s.changes.deleted)[k].id == id {
      var i := RowOfKey(s.changes.deleted, k);
    } else {
      assert k in ByKey(s.entries) && ByKey(s.entries)[k].id == id;
    }
  }

  /** An id the diff left alone is the id of a row that survived. */
  lemma OtherIdAgrees(live: Rows, s: Synced, m0: Vectors, id: nat)
    requires ChangesCover(live, s) && id !in ChangedIds(s.changes)
    requires forall k :: k in ByKey(s.entries) && k in ByKey(live) ==> ByKey(s.entries)[k].id == ByKey(live)[k].id
    requires OnlyIds(m0, ByKey(live)) && id in m0
    ensures IsId(ByKey(s.entries), id)
  {
    var l, r := ByKey(live), ByKey(s.entries);
    assert IsId(l, id);
    var k :| k in l && l[k].id == id;
    if k !in r {
      IdsOfKey(s.changes.deleted, k);
    }
  }

  lemma IdAgrees(eng: Engine, live: Rows, s: Synced, m0: Vectors, m: Vectors, id: nat)
    requires ChangesCover(live, s) && DistinctKeys(live)
    requires forall k :: k in ByKey(s.entries) && k in ByKey(live) ==> ByKey(s.entries)[k].id == ByKey(live)[k].id
    requires OnlyIds(m0, ByKey(live)) && Applied(eng, m0, m, s.changes) && id in m
    ensures IsId(ByKey(s.entries), id)
  {
    if id in ChangedIds(s.changes) {
      TouchedIdAgrees(eng, live, s, m0, m, id);
    } else {
      OtherIdAgrees(live, s, m0, id);
    }
  }

  // ---- What the table promises the index ----

  /** The rows of a diff have distinct ids. */
  lemma UpsertsDistinct(live: Rows, s: Synced)
    requires ChangesCover(live, s) && IdsDistinct(ByKey(s.entries))
    ensures DistinctIds(Upserts(s.changes))
  {
    var ch, r := s.changes, ByKey(s.entries);
    forall i, j | 0 <= i < |Upserts(ch)| && 0 <= j < |Upserts(ch)| && Upserts(ch)[i].id == Upserts(ch)[j].id
      ensures i == j
    {
      UpsertKey(live, s, i, Upserts(s.changes)[i]);
      UpsertKey(live, s, j, Upserts(s.changes)[j]);
      OneKey(r, Upserts(ch)[i].chunk.key, Upserts(ch)[j].chunk.key);
      if i < |ch.added| && j < |ch.added| {
        assert Keys(ch.added)[i] == Keys(ch.added)[j];
      } else if i >= |ch.added| && j >= |ch.added| {
        assert Keys(ch.modified)[i - |ch.added|] == Keys(ch.modified)[j - |ch.added|];
      }
    }
  }

  lemma UpsertIs(ch: Changes, i: nat)
    requires i < |Upserts(ch)|
    ensures i < |ch.added| ==> Upserts(ch)[i] == ch.added[i]
    ensures i >= |ch.added| ==> Upserts(ch)[i] == ch.modified[i - |ch.added|]
  {}

  /** The table has the row's key, under the row's id. */
  ghost predicate Names(r: Keyed, row: Stored) {
    row.chunk.key in r && r[row.chunk.key].id == row.id
  }

  lemma AddedKey(live: Rows, s: Synced, i: nat, row: Stored)
    requires ChangesCover(live, s) && i < |s.changes.added| && row == s.changes.added[i]
    ensures Names(ByKey(s.entries), row) && row.chunk.key !in ByKey(live)
  {
    RowAt(s.changes.added, i);
  }

  lemma ModifiedKey(live: Rows, s: Synced, i: nat, row: Stored)
    requires ChangesCover(live, s) && i < |s.changes.modified| && row == s.changes.modified[i]
    ensures Names(ByKey(s.entries), row) && row.chunk.key in ByKey(live)
  {
    RowAt(s.changes.modified, i);
  }

  lemma UpsertKey(live: Rows, s: Synced, i: nat, row: Stored)
    requires ChangesCover(live, s) && i < |Upserts(s.changes)| && row == Upserts(s.changes)[i]
    ensures Names(ByKey(s.entries), row) && (i < |s.changes.added| <==> row.chunk.key !in ByKey(live))
  {
    UpsertIs(s.changes, i);
    if i < |s.changes.added| {
      AddedKey(live, s, i, row);
    } else {
      ModifiedKey(live, s, i - |s.changes.added|, row);
    }
  }

  /** No deleted id is also upserted. */
  lemma DeletedApart(live: Rows, nextId: nat, s: Synced)
    requires WellFormed(live, nextId) && ChangesCover(live, s)
    requires forall k :: k in ByKey(s.entries) && k in ByKey(live) ==> ByKey(s.entries)[k].id == ByKey(live)[k].id
    requires forall k :: k in ByKey(s.entries) && k !in ByKey(live) ==> nextId <= ByKey(s.entries)[k].id
    ensures Ids(Upserts(s.changes)) !! Ids(s.changes.deleted)
  {
    forall id | id in Ids(Upserts(s.changes)) && id in Ids(s.changes.deleted)
      ensures false
    {
      var i :| 0 <= i < |Upserts(s.changes)| && Upserts(s.changes)[i].id == id;
      UpsertKey(live, s, i, Upserts(s.changes)[i]);
      var k := KeyOfId(s.changes.deleted, id);
      if Upserts(s.changes)[i].chunk.key in ByKey(live) {
        OneKey(ByKey(live), k, Upserts(s.changes)[i].chunk.key);
      }
    }
  }

  lemma TableDistinct(rows: Rows)
    requires DistinctKeys(rows) && IdsDistinct(ByKey(rows))
    ensures DistinctIds(rows)
  {
    forall i, j | 0 <= i < |rows| && 0 <= j < |rows| && rows[i].id == rows[j].id
      ensures i == j
    {
      RowAt(rows, i);
      RowAt(rows, j);
      OneKey(ByKey(rows), KeyOf(rows, i), KeyOf(rows, j));
    }
  }

  /** An index filled with every row has them all, and any other id it holds it held before. */
  lemma FilledOver(eng: Engine, rows: Rows, leftover: Vectors, m: Vectors)
    requires DistinctKeys(rows) && Elsewhere(leftover, m, Ids(rows))
    requires forall u {:trigger HasRow(eng, m, rows, u)} :: 0 <= u < |rows| ==> HasRow(eng, m, rows, u)
    ensures Refilled(eng, m, ByKey(rows), leftover)
  {
    forall k | k in ByKey(rows)
      ensures ByKey(rows)[k].id in m && m[ByKey(rows)[k].id] == eng.VectorOf(ByKey(rows)[k])
    {
      var i := RowOfKey(rows, k);
      assert HasRow(eng, m, rows, i);
    }
    StrangersStay(rows, leftover, m);
    StrangersStay(rows, m, leftover);
  }

  /** Two indexes that differ only in the table's ids: if one holds no other ids, neither does the other. */
  lemma StrangersStay(rows: Rows, a: Vectors, b: Vectors)
    requires DistinctKeys(rows) && forall id :: id !in Ids(rows) && id in b ==> id in a
    ensures OnlyIds(a, ByKey(rows)) ==> OnlyIds(b, ByKey(rows))
  {
    if OnlyIds(a, ByKey(rows)) {
      forall id | id in b
        ensures IsId(ByKey(rows), id)
      {
        if id in Ids(rows) {
          var k := KeyOfId(rows, id);
        }
      }
    }
  }

  /**
   A temporary file that was complete for one table is harmless to the refill after the next sync exactly
   when that sync deletes nothing.
   */
  lemma LeftoverIsHarmlessIff(eng: Engine, live: Rows, nextId: nat, batch: seq<Chunk>, leftover: Vectors)
    requires WellFormed(live, nextId) && Agrees(eng, leftover, ByKey(live))
    ensures OnlyIds(leftover, ByKey(Sync(live, nextId, batch).entries)) <==> Sync(live, nextId, batch).changes.deleted == []
  {
    var s := Sync(live, nextId, batch);
    SyncMeaning(live, nextId, batch);
    SyncChanges(live, nextId, batch);
    if s.changes.deleted == [] {
      NothingDeleted(live, s, leftover);
    } else {
      DeletedIsGone(live, nextId, s);
      assert IsId(ByKey(live), s.changes.deleted[0].id);
    }
  }

  lemma NothingDeleted(live: Rows, s: Synced, m: Vectors)
    requires ChangesCover(live, s) && s.changes.deleted == [] && OnlyIds(m, ByKey(live))
    requires forall k :: k in ByKey(s.entries) && k in ByKey(live) ==> ByKey(s.entries)[k].id == ByKey(live)[k].id
    ensures OnlyIds(m, ByKey(s.entries))
  {
    forall id | id in m
      ensures IsId(ByKey(s.entries), id)
    {
      assert IsId(ByKey(live), id);
      var k :| k in ByKey(live) && ByKey(live)[k].id == id;
      assert k in ByKey(s.entries);
    }
  }

  lemma DeletedIsGone(live: Rows, nextId: nat, s: Synced)
    requires WellFormed(live, nextId) && ChangesCover(live, s) && s.changes.deleted != []
    requires forall k :: k in ByKey(s.entries) && k in ByKey(live) ==> ByKey(s.entries)[k].id == ByKey(live)[k].id
    requires forall k :: k in ByKey(s.entries) && k !in ByKey(live) ==> nextId <= ByKey(s.entries)[k].id
    ensures IsId(ByKey(live), s.changes.deleted[0].id) && !IsId(ByKey(s.entries), s.changes.deleted[0].id)
  {
    var gone, k := s.changes.deleted[0], KeyOf(s.changes.deleted, 0);
    RowAt(s.changes.deleted, 0);
    assert k in ByKey(live) && ByKey(live)[k].id == gone.id;
    if IsId(ByKey(s.entries), gone.id) {
      var k' :| k' in ByKey(s.entries) && ByKey(s.entries)[k'].id == gone.id;
      if k' in ByKey(live) {
        OneKey(ByKey(live), k, k');
      }
    }
  }

  /**
   So a rebuild can report success and leave a deleted id behind. The table of one row loses it; the temporary
   file of an earlier rebuild is still there; refilling it with no rows changes nothing.
   */
  lemma LeftoverCanStay(eng: Engine, chunk: Chunk)
    ensures var (live, leftover) := ([Stored(1, chunk)], map[1 := eng.VectorOf(Stored(1, chunk))]);
            && WellFormed(live, 2) && Agrees(eng, leftover, ByKey(live))
            && Sync(live, 2, []).entries == []
            && Refilled(eng, leftover, ByKey([]), leftover) && !Agrees(eng, leftover, ByKey([]))
  {
    var live, leftover := [Stored(1, chunk)], map[1 := eng.VectorOf(Stored(1, chunk))];
    AppendRow([], Stored(1, chunk));
    assert [] + [Stored(1, chunk)] == live;
    assert forall k, k' :: IdsDiffer(ByKey(live), k, k');
    assert IsId(ByKey(live), 1) by {
      assert chunk.key in ByKey(live);
    }
    assert 1 in leftover && !IsId(ByKey([]), 1);
  }

  // ---- Files ----

  /** The index files of one repository: the one it opens, and `<path>.rebuild`. None is no file. */
  class IndexFiles {
    var main: Option<Vectors>
    var temp: Option<Vectors>

    constructor (main: Option<Vectors>)
      ensures this.main == main && temp == None
    {
      this.main, temp := main, None;
    }

    /** `cberg_index_save`: on failure the file may hold anything. */
    method Save(index: VectorIndex, isTemp: bool) returns (st: Status)
      modifies this
      ensures if isTemp then main == old(main) else temp == old(temp)
      ensures st == Ok ==> (if isTemp then temp else main) == Some(index.vectors)
    {
      st := Outcome();
      var file: Option<Vectors> := *;
      if st == Ok {
        file := Some(index.vectors);
      }
      if isTemp {
        temp := file;
      } else {
        main := file;
      }
    }

    /** `cberg_index_open`: a handle on what the file holds, or none. */
    method Open(isTemp: bool) returns (st: Status, index: VectorIndex?)
      ensures st == Ok <==> index != null
      ensures index != null ==> fresh(index) && index.vectors == match (if isTemp then temp else main) case Some(m) => m case None => map[]
    {
      st := Outcome();
      index := null;
      if st == Ok {
        index := new VectorIndex(match (if isTemp then temp else main) case Some(m) => m case None => map[]);
      }
    }

    /** `unlink(temp)`: the file goes or stays as it is, and no caller looks. */
    method Unlink()
      modifies this
      ensures main == old(main) && (temp == None || temp == old(temp))
    {
      var ok: bool := *;
      if ok {
        temp := None;
      }
    }

    /** `rename(temp, path)`: atomic. */
    method Rename() returns (ok: bool)
      modifies this
      ensures ok ==> main == old(temp) && temp == None
      ensures !ok ==> main == old(main) && temp == old(temp)
    {
      ok := *;
      if ok {
        main, temp := temp, None;
      }
    }
  }

  // ---- The repository ----

  datatype Op = ApplyDiff(ch: Changes) | Rebuild

  predicate Retriable(st: Status) {
    st == Io || st == Timeout || st == Internal
  }

  /** What the tries of one operation said: another one after every IO, TIMEOUT or INTERNAL and after nothing else, four at most. */
  ghost predicate Tried(said: seq<Status>) {
    && 1 <= |said| <= 4
    && (forall i :: 0 <= i < |said| - 1 ==> said[i] == Io || said[i] == Timeout || said[i] == Internal)
    && (said[|said| - 1] == Io || said[|said| - 1] == Timeout || said[|said| - 1] == Internal ==> |said| == 4)
  }

  /** What they came to. */
  ghost function Final(said: seq<Status>): Status {
    if said == [] then Ok else said[|said| - 1]
  }

  /** `cberg_repo`: the chunk table, the vector index that must follow it, and whether both may be searched. */
  class Repo {
    const eng: Engine
    const files: IndexFiles
    const chunks: ChunkTable
    const vectorsOn: bool
    const inPlace: bool
    const prefix: Hash -> nat
    const mix64: nat -> nat

    /** `r->index`: null when no handle is open. */
    var index: VectorIndex?
    var ready: bool

    /** The index the last rebuild or the bootstrap filled held, before, ids that are not in the table. */
    ghost var tainted: bool

    constructor (eng: Engine, files: IndexFiles, chunks: ChunkTable, vectorsOn: bool, inPlace: bool, prefix: Hash -> nat, mix64: nat -> nat, index: VectorIndex?)
      ensures this.eng == eng && this.files == files && this.chunks == chunks && this.vectorsOn == vectorsOn && this.inPlace == inPlace
      ensures this.index == index && !ready && !tainted
    {
      this.eng, this.files, this.chunks, this.vectorsOn, this.inPlace, this.prefix, this.mix64 := eng, files, chunks, vectorsOn, inPlace, prefix, mix64;
      this.index, this.ready, this.tainted := index, false, false;
    }

    /** Deletions of `apply_vectors`: an id already absent counts as removed. */
    method RemoveAll(idx: VectorIndex, deleted: Rows) returns (st: Status)
      modifies idx
      ensures Elsewhere(old(idx.vectors), idx.vectors, Ids(deleted))
      ensures st == Ok ==> forall i :: 0 <= i < |deleted| ==> deleted[i].id !in idx.vectors
      ensures forall id :: id in idx.vectors ==> id in old(idx.vectors)
    {
      for i := 0 to |deleted|
        invariant Elsewhere(old(idx.vectors), idx.vectors, Ids(deleted))
        invariant forall j :: 0 <= j < i ==> deleted[j].id !in idx.vectors
        invariant forall id :: id in idx.vectors ==> id in old(idx.vectors)
      {
        assert deleted[i].id in Ids(deleted);
        st := idx.Remove(deleted[i].id);
        if st == NotFound {
          st := Ok;
        }
        if st != Ok {
          return;
        }
      }
      st := Ok;
    }

    /** `apply_vectors`: the diff's rows embedded and added, its deleted ids removed, the index saved. */
    method ApplyVectors(ch: Changes, ghost m0: Vectors) returns (st: Status)
      requires DistinctIds(Upserts(ch)) && Ids(Upserts(ch)) !! Ids(ch.deleted)
      requires index != null ==> Elsewhere(m0, index.vectors, ChangedIds(ch))
      modifies eng, files, index
      ensures index != null ==> Elsewhere(m0, index.vectors, ChangedIds(ch))
      ensures index != null && vectorsOn && st == Ok ==> Applied(eng, m0, index.vectors, ch) && files.main == Some(index.vectors)
    {
      if !vectorsOn || index == null {
        return Ok;
      }
      if |ch.added| + |ch.modified| == 0 && |ch.deleted| == 0 {
        st := files.Save(index, false);
        return;
      }
      st := Ok;
      if |ch.added| + |ch.modified| > 0 {
        var ok := TryAlloc(|ch.added| + |ch.modified|);
        if !ok {
          return OutOfMemory;
        }
        st := UpsertRows(index, Upserts(ch), ch, m0);
        if st != Ok {
          return;
        }
      }
      ghost var m1 := index.vectors;
      st := RemoveAll(index, ch.deleted);
      RemovedApplies(eng, m0, m1, index.vectors, ch);
      if st != Ok {
        return;
      }
      st := files.Save(index, false);
    }

    method UpsertRows(idx: VectorIndex, rows: Rows, ghost ch: Changes, ghost m0: Vectors) returns (st: Status)
      requires rows == Upserts(ch) && DistinctIds(rows) && Elsewhere(m0, idx.vectors, ChangedIds(ch))
      modifies eng, idx
      ensures Elsewhere(m0, idx.vectors, ChangedIds(ch))
      ensures st == Ok ==> forall u {:trigger HasRow(eng, idx.vectors, rows, u)} :: 0 <= u < |rows| ==> HasRow(eng, idx.vectors, rows, u)
    {
      var unique;
      ghost var reps, groupOf, gs, windows;
      st, unique, reps, groupOf, gs, windows := EmbedRows(eng, idx, rows, prefix, mix64);
    }

    /** `embed_table`: every row of the table into one index. */
    method EmbedTable(target: VectorIndex) returns (st: Status)
      requires DistinctIds(chunks.entries)
      modifies eng, target
      ensures Elsewhere(old(target.vectors), target.vectors, Ids(chunks.entries))
      ensures st == Ok ==> forall u {:trigger HasRow(eng, target.vectors, chunks.entries, u)} :: 0 <= u < |chunks.entries| ==> HasRow(eng, target.vectors, chunks.entries, u)
    {
      if |chunks.entries| == 0 {
        return Ok;
      }
      var ok := TryAlloc(|chunks.entries|);
      if !ok {
        return OutOfMemory;
      }
      var unique;
      ghost var reps, groupOf, gs, windows;
      st, unique, reps, groupOf, gs, windows := EmbedRows(eng, target, chunks.entries, prefix, mix64);
    }

    /** `rebuild_index` for a provider that clears and refills its index. */
    method RebuildInPlace(idx: VectorIndex) returns (st: Status)
      requires DistinctKeys(chunks.entries) && DistinctIds(chunks.entries)
      modifies eng, files, idx
      ensures st == Ok ==> Agrees(eng, idx.vectors, ByKey(chunks.entries)) && files.main == Some(idx.vectors)
    {
      st := idx.Clear();
      if st != Ok {
        return;
      }
      st := EmbedTable(idx);
      if st != Ok {
        return;
      }
      FilledOver(eng, chunks.entries, map[], idx.vectors);
      st := files.Save(idx, false);
    }

    /**
     `rebuild_index`, the temporary file: filled and saved, or gone again. `leftover` is what opening it found:
     nothing, or the file of an earlier rebuild that `unlink` did not remove.
     */
    method FillTemp() returns (st: Status, ghost leftover: Vectors)
      requires DistinctKeys(chunks.entries) && DistinctIds(chunks.entries)
      modifies eng, files
      ensures files.main == old(files.main)
      ensures leftover == map[] || old(files.temp) == Some(leftover)
      ensures st == Ok ==> files.temp.Some? && Refilled(eng, files.temp.value, ByKey(chunks.entries), leftover)
    {
      files.Unlink();
      leftover := map[];
      var temp;
      st, temp := files.Open(true);
      if st != Ok {
        return;
      }
      leftover := temp.vectors;
      st := EmbedTable(temp);
      if st != Ok {
        files.Unlink();
        return;
      }
      st := files.Save(temp, true);
      if st != Ok {
        files.Unlink();
        return;
      }
      FilledOver(eng, chunks.entries, leftover, temp.vectors);
    }

    /**
     `rebuild_index`: an open handle afterwards, on success, answers from every row of the table, and from nothing
     else exactly when the leftover held nothing else. The index file is replaced whole or not at all. A handle
     that could not be reopened stays null, and then the next call does nothing and says Ok.
     */
    method RebuildIndex() returns (st: Status, ghost leftover: Vectors)
      requires DistinctKeys(chunks.entries) && DistinctIds(chunks.entries)
      modifies this`index, eng, files, index
      ensures index == old(index) || index == null || fresh(index)
      ensures old(index) == null ==> index == null
      ensures leftover == map[] || (!inPlace && old(files.temp) == Some(leftover))
      ensures st == Ok && index != null && vectorsOn ==>
                files.main == Some(index.vectors) && Refilled(eng, index.vectors, ByKey(chunks.entries), leftover)
      ensures !inPlace && files.main != old(files.main) ==>
                files.main.Some? && Refilled(eng, files.main.value, ByKey(chunks.entries), leftover)
      ensures old(index) == null ==> st == Ok
    {
      leftover := map[];
      if !vectorsOn || index == null {
        return Ok, leftover;
      }
      if inPlace {
        st := RebuildInPlace(index);
        return;
      }
      st, leftover := FillTemp();
      if st != Ok {
        return;
      }
      index := null;
      var renamed := files.Rename();
      if !renamed {
        var reopened;
        reopened, index := files.Open(false);
        return Io, leftover;
      }
      st, index := files.Open(false);
    }

    /** What one attempt at an operation needs, and so what a failed one must leave. */
    ghost predicate CanTry(op: Op, m0: Vectors)
      reads this, index, chunks
    {
      match op
      case ApplyDiff(ch) =>
        && DistinctIds(Upserts(ch)) && Ids(Upserts(ch)) !! Ids(ch.deleted)
        && (index != null ==> Elsewhere(m0, index.vectors, ChangedIds(ch)))
      case Rebuild => DistinctKeys(chunks.entries) && DistinctIds(chunks.entries)
    }

    /** What an operation that reports success has achieved. */
    ghost predicate Achieved(op: Op, m0: Vectors, leftover: Vectors)
      reads this, index, files, chunks
    {
      index != null && vectorsOn ==>
        && files.main == Some(index.vectors)
        && match op
           case ApplyDiff(ch) => Applied(eng, m0, index.vectors, ch)
           case Rebuild => Refilled(eng, index.vectors, ByKey(chunks.entries), leftover)
    }

    method Attempt(op: Op, ghost m0: Vectors) returns (st: Status, ghost leftover: Vectors)
      requires CanTry(op, m0)
      modifies this`index, eng, files, index
      ensures index == old(index) || index == null || fresh(index)
      ensures old(index) == null ==> index == null
      ensures CanTry(op, m0)
      ensures op.ApplyDiff? || inPlace ==> leftover == map[]
      ensures st == Ok ==> Achieved(op, m0, leftover)
      ensures op.ApplyDiff? ==> index == old(index)
    {
      leftover := map[];
      match op
      case ApplyDiff(ch) => st := ApplyVectors(ch, m0);
      case Rebuild => st, leftover := RebuildIndex();
    }

    /** `with_vector_retry`: one attempt, and at most three more while the status is worth retrying. */
    method WithRetry(op: Op, ghost m0: Vectors) returns (st: Status, ghost leftover: Vectors, ghost said: seq<Status>)
      requires CanTry(op, m0)
      modifies this`index, eng, files, index
      ensures index == old(index) || index == null || fresh(index)
      ensures old(index) == null ==> index == null
      ensures CanTry(op, m0)
      ensures op.ApplyDiff? || inPlace ==> leftover == map[]
      ensures st == Ok ==> Achieved(op, m0, leftover)
      ensures op.ApplyDiff? ==> index == old(index)
      ensures Tried(said) && st == Final(said)
    {
      st, leftover := Attempt(op, m0);
      said := [st];
      var attempt := 0;
      while st != Ok && Retriable(st) && attempt < 3
        invariant attempt <= 3 && |said| == attempt + 1 && st == said[attempt]
        invariant forall i :: 0 <= i < attempt ==> Retriable(said[i])
        invariant index == old(index) || index == null || fresh(index)
        invariant old(index) == null ==> index == null
        invariant CanTry(op, m0)
        invariant op.ApplyDiff? || inPlace ==> leftover == map[]
        invariant st == Ok ==> Achieved(op, m0, leftover)
        invariant op.ApplyDiff? ==> index == old(index)
      {
        st, leftover := Attempt(op, m0);
        attempt, said := attempt + 1, said + [st];
      }
    }

    /**
     `sync_vectors`, for the diff that took the table from `live` to what it is now, whichever calls failed on
     the way. If it succeeds and a handle is open, the file holds what the handle answers from. After a plain
     apply the index has every row, and only rows, if it had them for `live`. After a rebuild it has every row
     whatever was there before, and only rows exactly when the leftover it found held only rows, as it does when
     there was none. A failure leaves the repository not ready.
     */
    method SyncVectors(ch: Changes, ghost live: Rows, ghost nextId: nat, ghost batch: seq<Chunk>)
      returns (st: Status, ghost rebuilt: bool, ghost leftover: Vectors, ghost applies: seq<Status>, ghost rebuilds: seq<Status>)
      requires WellFormed(live, nextId) && chunks.entries == Sync(live, nextId, batch).entries && ch == Sync(live, nextId, batch).changes
      modifies this`index, this`ready, this`tainted, eng, files, index
      ensures index == old(index) || index == null || fresh(index)
      ensures old(index) == null ==> index == null
      ensures st == Ok && index != null && vectorsOn ==> files.main == Some(index.vectors)
      ensures st == Ok && !rebuilt ==> index == old(index) && ready == old(ready) && tainted == old(tainted)
      ensures st == Ok && !rebuilt && index != null && vectorsOn ==>
                && (old(index != null && HasAll(eng, index.vectors, ByKey(live))) ==> HasAll(eng, index.vectors, ByKey(chunks.entries)))
                && (old(index != null && OnlyIds(index.vectors, ByKey(live))) ==> OnlyIds(index.vectors, ByKey(chunks.entries)))
      ensures st == Ok && rebuilt ==> ready && (tainted <==> !OnlyIds(leftover, ByKey(chunks.entries)))
      ensures st == Ok && rebuilt && index != null && vectorsOn ==> Refilled(eng, index.vectors, ByKey(chunks.entries), leftover)
      ensures inPlace ==> leftover == map[]
      ensures st != Ok ==> !ready && rebuilt
      ensures Tried(applies) && (rebuilt <==> Final(applies) != Ok)
      ensures if rebuilt then Tried(rebuilds) && st == Final(rebuilds) else rebuilds == []
    {
      ghost var s := Sync(live, nextId, batch);
      SyncMeaning(live, nextId, batch);
      SyncChanges(live, nextId, batch);
      UpsertsDistinct(live, s);
      DeletedApart(live, nextId, s);
      TableDistinct(chunks.entries);
      ghost var m0 := if index != null then index.vectors else map[];
      rebuilds := [];
      st, leftover, applies := WithRetry(ApplyDiff(ch), m0);
      rebuilt := st != Ok;
      if st == Ok && index != null && vectorsOn {
        assert Achieved(ApplyDiff(ch), m0, leftover);
        AppliedAgrees(eng, live, nextId, s, m0, index.vectors);
      }
      if st != Ok {
        ready := false;
        st, leftover, rebuilds := WithRetry(Rebuild, map[]);
        if st != Ok {
          return;
        }
        ready := true;
        tainted := !OnlyIds(leftover, ByKey(chunks.entries));
      }
    }
  }

  /** Removing the deleted ids leaves the upserted rows where they are. */
  lemma RemovedApplies(eng: Engine, m0: Vectors, m1: Vectors, m: Vectors, ch: Changes)
    requires Ids(Upserts(ch)) !! Ids(ch.deleted)
    requires Elsewhere(m0, m1, ChangedIds(ch)) && Elsewhere(m1, m, Ids(ch.deleted))
    ensures Elsewhere(m0, m, ChangedIds(ch))
    ensures (forall u {:trigger HasRow(eng, m1, Upserts(ch), u)} :: 0 <= u < |Upserts(ch)| ==> HasRow(eng, m1, Upserts(ch), u)) ==>
            (forall u {:trigger HasRow(eng, m, Upserts(ch), u)} :: 0 <= u < |Upserts(ch)| ==> HasRow(eng, m, Upserts(ch), u))
  {
    if forall u {:trigger HasRow(eng, m1, Upserts(ch), u)} :: 0 <= u < |Upserts(ch)| ==> HasRow(eng, m1, Upserts(ch), u) {
      forall u {:trigger HasRow(eng, m, Upserts(ch), u)} | 0 <= u < |Upserts(ch)|
        ensures HasRow(eng, m, Upserts(ch), u)
      {
        assert HasRow(eng, m1, Upserts(ch), u);
        assert Upserts(ch)[u].id in Ids(Upserts(ch));
      }
    }
  }
}
