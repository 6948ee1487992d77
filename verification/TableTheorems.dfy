/** What a sync means: the theorems about the diff that the rest of the indexer relies on. */
module TableTheorems {
  import opened Common
  import opened Sorting
  import opened TableSync

  /**
   The new table is the batch with the last chunk of each key winning; keys that survive keep their
   ids, and every other key gets an id never handed out before.
   */
  lemma SyncMeaning(live: Rows, nextId: nat, batch: seq<Chunk>)
    requires WellFormed(live, nextId)
    ensures var s := Sync(live, nextId, batch);
            && WellFormed(s.entries, s.nextId) && nextId <= s.nextId
            && KeyHash(s.entries) == LastWins(batch)
            && (forall k :: k in ByKey(s.entries) && k in ByKey(live) ==> ByKey(s.entries)[k].id == ByKey(live)[k].id)
            && (forall k :: k in ByKey(s.entries) && k !in ByKey(live) ==> nextId <= ByKey(s.entries)[k].id)
  {
    ApplyAllState(live, nextId, batch);
    var n := ApplyAll(live, nextId, batch);
    RowsAreBatch(ByKey(live), ByKey(n.entries), ByKey(n.added), ByKey(n.modified), LastWins(batch), Touched(ByKey(live), batch), nextId, n.nextId);
    assert KeyHash(n.entries) == LastWins(batch);
  }

  /** What the state says of the new rows alone. */
  lemma RowsAreBatch(l: Keyed, r: Keyed, a: Keyed, m: Keyed, w: map<string, Hash>, t: set<string>, lo: nat, hi: nat)
    requires 0 < lo && MapsOk(l, r, a, m, w, t, lo, hi) && forall k :: k in l ==> 0 < l[k].id < lo
    ensures forall k :: k in r <==> k in w
    ensures forall k :: k in r ==> r[k].chunk.hash == w[k] && 0 < r[k].id < hi
    ensures forall k :: k in r && k in l ==> r[k].id == l[k].id
    ensures forall k :: k in r && k !in l ==> lo <= r[k].id
  {
    forall k | k in r || k in w
      ensures KeyOk(l, r, a, m, w, t, lo, hi, k)
    {}
  }

  // ---- What the rows hold ----

  /** The last chunk of a key. */
  ghost predicate LastAt(batch: seq<Chunk>, k: string, i: nat) {
    i < |batch| && batch[i].key == k && forall j :: i < j < |batch| ==> batch[j].key != k
  }

  /** No other chunk of the batch has this one's key. */
  ghost predicate Alone(batch: seq<Chunk>, i: nat)
    requires i < |batch|
  {
    forall j :: 0 <= j < |batch| && batch[j].key == batch[i].key ==> j == i
  }

  /** The row a key's last chunk stands for: the live one, when that chunk is the only one and its hash is the live hash. */
  ghost function Held(l: Keyed, batch: seq<Chunk>, i: nat): Chunk
    requires i < |batch|
  {
    var c := batch[i];
    if Alone(batch, i) && c.key in l && l[c.key].chunk.hash == c.hash then l[c.key].chunk else c
  }

  lemma {:induction false} InLastWins(batch: seq<Chunk>, j: nat)
    requires j < |batch|
    ensures batch[j].key in LastWins(batch)
  {
    var n := |batch| - 1;
    if j < n {
      InLastWins(batch[..n], j);
    }
  }

  /**
   One chunk changes the row of its own key and no other: a key met before takes the new chunk whole; one met first
   takes it unless the live row has its hash.
   */
  lemma OneRow(n: Next, live: Rows, inc: Chunk) returns (row: Stored)
    requires DistinctKeys(n.entries)
    ensures ByKey(Apply(n, live, inc).entries) == ByKey(n.entries)[inc.key := row]
    ensures var l := ByKey(live);
            row.chunk == if inc.key !in ByKey(n.entries) && inc.key in l && l[inc.key].chunk.hash == inc.hash then l[inc.key].chunk else inc
  {
    if inc.key in ByKey(n.entries) {
      var at := Find(n.entries, inc.key).value;
      row := Stored(n.entries[at].id, inc);
      ReplaceRow(n.entries, at, row);
    } else {
      row := FirstRow(live, n, inc);
      AppendRow(n.entries, row);
    }
  }

  /** What has been met is what the table has. */
  lemma MetIff(live: Rows, nextId: nat, batch: seq<Chunk>, k: string)
    requires WellFormed(live, nextId)
    ensures DistinctKeys(ApplyAll(live, nextId, batch).entries)
    ensures k !in ByKey(ApplyAll(live, nextId, batch).entries) ==> forall j :: 0 <= j < |batch| ==> batch[j].key != k
  {
    ApplyAllState(live, nextId, batch);
    var n := ApplyAll(live, nextId, batch);
    assert KeyOk(ByKey(live), ByKey(n.entries), ByKey(n.added), ByKey(n.modified), LastWins(batch), Touched(ByKey(live), batch), nextId, n.nextId, k);
    forall j | 0 <= j < |batch|
      ensures k !in ByKey(n.entries) ==> batch[j].key != k
    {
      InLastWins(batch, j);
    }
  }

  /** A chunk at the end of a batch leaves what the others stand for as it was. */
  lemma HeldNext(l: Keyed, batch: seq<Chunk>, inc: Chunk, k: string, i: nat)
    requires LastAt(batch, k, i)
    ensures inc.key != k ==> LastAt(batch + [inc], k, i) && Held(l, batch + [inc], i) == Held(l, batch, i)
    ensures inc.key == k ==> !Alone(batch + [inc], |batch|)
  {
    var all := batch + [inc];
    assert all[i] == batch[i] && all[|batch|] == inc;
    assert forall j :: 0 <= j < |batch| ==> all[j] == batch[j];
  }

  lemma LastIsHeld(l: Keyed, batch: seq<Chunk>, inc: Chunk, met: bool, c: Chunk)
    requires met <==> !Alone(batch + [inc], |batch|)
    requires c == if !met && inc.key in l && l[inc.key].chunk.hash == inc.hash then l[inc.key].chunk else inc
    ensures LastAt(batch + [inc], inc.key, |batch|) && c == Held(l, batch + [inc], |batch|)
  {}

  lemma HoldStep(n: Next, live: Rows, batch: seq<Chunk>, inc: Chunk, k: string, prev: nat) returns (i: nat)
    requires DistinctKeys(n.entries) && k in ByKey(Apply(n, live, inc).entries)
    requires k in ByKey(n.entries) ==> LastAt(batch, k, prev) && ByKey(n.entries)[k].chunk == Held(ByKey(live), batch, prev)
    requires k !in ByKey(n.entries) ==> forall j :: 0 <= j < |batch| ==> batch[j].key != k
    ensures LastAt(batch + [inc], k, i) && ByKey(Apply(n, live, inc).entries)[k].chunk == Held(ByKey(live), batch + [inc], i)
  {
    var row := OneRow(n, live, inc);
    i := prev;
    if k in ByKey(n.entries) {
      HeldNext(ByKey(live), batch, inc, k, prev);
    }
    if k == inc.key {
      LastIsHeld(ByKey(live), batch, inc, k in ByKey(n.entries), row.chunk);
      i := |batch|;
    }
  }

  lemma {:induction false} RowHolds(live: Rows, nextId: nat, batch: seq<Chunk>, k: string) returns (i: nat)
    requires WellFormed(live, nextId) && k in ByKey(ApplyAll(live, nextId, batch).entries)
    ensures LastAt(batch, k, i) && ByKey(ApplyAll(live, nextId, batch).entries)[k].chunk == Held(ByKey(live), batch, i)
  {
    var init, inc := batch[..|batch| - 1], batch[|batch| - 1];
    var n := ApplyAll(live, nextId, init);
    MetIff(live, nextId, init, k);
    var prev := 0;
    if k in ByKey(n.entries) {
      prev := RowHolds(live, nextId, init, k);
    }
    i := HoldStep(n, live, init, inc, k, prev);
    assert batch == init + [inc];
  }

  /**
   Every row, field by field: the last chunk of its key in the batch, path, symbol, kind, span and hash; except that
   a key named once, with the hash it has in the live table, keeps the live row's chunk.
   */
  lemma SyncRows(live: Rows, nextId: nat, batch: seq<Chunk>, k: string)
    requires WellFormed(live, nextId) && k in ByKey(Sync(live, nextId, batch).entries)
    ensures exists i :: LastAt(batch, k, i) && ByKey(Sync(live, nextId, batch).entries)[k].chunk == Held(ByKey(live), batch, i)
  {
    var i := RowHolds(live, nextId, batch, k);
  }

  lemma LastIsOne(batch: seq<Chunk>, k: string, i: nat, j: nat)
    requires LastAt(batch, k, i) && LastAt(batch, k, j)
    ensures i == j
  {}

  /**
   A row is the batch's last chunk of its key, in every field, unless the batch names the key once, with the hash the
   live row has, and the live row differs elsewhere: then it keeps its old place in the file.
   */
  lemma RowIsFreshIff(live: Rows, nextId: nat, batch: seq<Chunk>, k: string, i: nat)
    requires WellFormed(live, nextId) && LastAt(batch, k, i)
    ensures k in ByKey(Sync(live, nextId, batch).entries)
    ensures ByKey(Sync(live, nextId, batch).entries)[k].chunk == batch[i] <==>
            !(Alone(batch, i) && k in ByKey(live) && ByKey(live)[k].chunk.hash == batch[i].hash && ByKey(live)[k].chunk != batch[i])
  {
    InLastWins(batch, i);
    SyncMeaning(live, nextId, batch);
    SyncRows(live, nextId, batch, k);
    var j :| LastAt(batch, k, j) && ByKey(Sync(live, nextId, batch).entries)[k].chunk == Held(ByKey(live), batch, j);
    LastIsOne(batch, k, i, j);
  }

  /** A chunk that moved with its bytes unchanged: the row keeps the old place. */
  lemma MovedChunkKeepsItsPlace(chunk: Chunk, moved: Span)
    requires moved != chunk.span
    ensures var (live, batch) := ([Stored(1, chunk)], [chunk.(span := moved)]);
            && WellFormed(live, 2) && chunk.key in ByKey(Sync(live, 2, batch).entries)
            && ByKey(Sync(live, 2, batch).entries)[chunk.key].chunk.span == chunk.span
  {
    var live, batch := [Stored(1, chunk)], [chunk.(span := moved)];
    AppendRow([], Stored(1, chunk));
    assert [] + [Stored(1, chunk)] == live;
    assert forall k, k' :: IdsDiffer(ByKey(live), k, k');
    assert LastAt(batch, chunk.key, 0);
    RowIsFreshIff(live, 2, batch, chunk.key, 0);
    SyncRows(live, 2, batch, chunk.key);
  }

  /** New rows get the next ids, one after the other. */
  ghost predicate NextIds(n: Next, nextId: nat) {
    n.nextId == nextId + |n.added| && forall i :: 0 <= i < |n.added| ==> n.added[i].id == nextId + i
  }

  lemma NextIdsNext(n: Next, live: Rows, inc: Chunk, nextId: nat)
    requires NextIds(n, nextId)
    ensures NextIds(Apply(n, live, inc), nextId)
  {}

  lemma {:induction false} NewIdsInOrder(live: Rows, nextId: nat, batch: seq<Chunk>)
    ensures NextIds(ApplyAll(live, nextId, batch), nextId)
  {
    if batch != [] {
      NewIdsInOrder(live, nextId, batch[..|batch| - 1]);
      NextIdsNext(ApplyAll(live, nextId, batch[..|batch| - 1]), live, batch[|batch| - 1], nextId);
    }
  }

  /** A sync hands out the next ids to the added rows in the order it met them, and no other. */
  lemma FreshIds(live: Rows, nextId: nat, batch: seq<Chunk>)
    ensures var s := Sync(live, nextId, batch);
            s.nextId == nextId + |s.changes.added| && forall i :: 0 <= i < |s.changes.added| ==> s.changes.added[i].id == nextId + i
  {
    NewIdsInOrder(live, nextId, batch);
  }

  ghost predicate FromBatch(list: Rows, batch: seq<Chunk>) {
    forall i {:trigger list[i]} :: 0 <= i < |list| ==> list[i].chunk in batch
  }

  lemma FromBatchNext(n: Next, live: Rows, batch: seq<Chunk>, inc: Chunk)
    requires FromBatch(n.added, batch) && FromBatch(n.modified, batch)
    ensures FromBatch(Apply(n, live, inc).added, batch + [inc]) && FromBatch(Apply(n, live, inc).modified, batch + [inc])
  {
    var all, n' := batch + [inc], Apply(n, live, inc);
    assert all[|batch|] == inc && forall c :: c in batch ==> c in all;
    assert forall i :: 0 <= i < |n'.added| ==> n'.added[i].chunk == inc || (i < |n.added| && n'.added[i] == n.added[i]);
    assert forall i :: 0 <= i < |n'.modified| ==> n'.modified[i].chunk == inc || (i < |n.modified| && n'.modified[i] == n.modified[i]);
  }

  lemma {:induction false} NextFromBatch(live: Rows, nextId: nat, batch: seq<Chunk>)
    ensures FromBatch(ApplyAll(live, nextId, batch).added, batch) && FromBatch(ApplyAll(live, nextId, batch).modified, batch)
  {
    if batch != [] {
      var init, inc := batch[..|batch| - 1], batch[|batch| - 1];
      NextFromBatch(live, nextId, init);
      FromBatchNext(ApplyAll(live, nextId, init), live, init, inc);
      assert batch == init + [inc];
    }
  }

  /** Every row of the added and modified lists holds a chunk of the batch, whole. */
  lemma ListsHoldChunks(live: Rows, nextId: nat, batch: seq<Chunk>)
    ensures FromBatch(Sync(live, nextId, batch).changes.added, batch) && FromBatch(Sync(live, nextId, batch).changes.modified, batch)
  {
    NextFromBatch(live, nextId, batch);
  }

  /**
   What the change lists promise whatever the batch: `added` names exactly the new keys, `deleted`
   exactly the live rows whose key is gone, by strictly rising id; a row in neither list keeps its hash
   unless `modified` has it; and every list row carries the id and hash the table now has.
   */
  ghost predicate ChangesCover(live: Rows, s: Synced) {
    var (l, r, a, m, d) := (ByKey(live), ByKey(s.entries), ByKey(s.changes.added), ByKey(s.changes.modified), ByKey(s.changes.deleted));
    && DistinctKeys(s.changes.added) && DistinctKeys(s.changes.modified) && DistinctKeys(s.changes.deleted)
    && (forall k :: k in a <==> k in r && k !in l)
    && (forall k :: k in a ==> Same(a[k], r[k]))
    && (forall k :: k in m ==> k in r && k in l && Same(m[k], r[k]))
    && (forall k :: k in r && k in l && k !in m ==> r[k].chunk.hash == l[k].chunk.hash)
    && (forall k :: k in d <==> k in l && k !in r)
    && (forall k :: k in d ==> d[k] == l[k])
    && (forall i, j :: 0 <= i < j < |s.changes.deleted| ==> s.changes.deleted[i].id < s.changes.deleted[j].id)
  }

  lemma SyncChanges(live: Rows, nextId: nat, batch: seq<Chunk>)
    requires WellFormed(live, nextId)
    ensures ChangesCover(live, Sync(live, nextId, batch))
    ensures ByKey(Sync(live, nextId, batch).changes.modified).Keys == Touched(ByKey(live), batch)
  {
    ApplyAllState(live, nextId, batch);
    var n := ApplyAll(live, nextId, batch);
    var l, r, w := ByKey(live), ByKey(n.entries), LastWins(batch);
    ListsCover(l, r, ByKey(n.added), ByKey(n.modified), w, Touched(l, batch), nextId, n.nextId);
    DeletedRows(live, n.seen, w);
  }

  /** What the state says of the two lists that name new rows. */
  lemma ListsCover(l: Keyed, r: Keyed, a: Keyed, m: Keyed, w: map<string, Hash>, t: set<string>, lo: nat, hi: nat)
    requires MapsOk(l, r, a, m, w, t, lo, hi)
    ensures forall k :: k in r <==> k in w
    ensures forall k :: k in a <==> k in r && k !in l
    ensures forall k :: k in a ==> Same(a[k], r[k])
    ensures forall k :: k in m ==> k in r && k in l && Same(m[k], r[k])
    ensures forall k :: k in r && k in l && k !in m ==> r[k].chunk.hash == l[k].chunk.hash
    ensures m.Keys == t
  {
    forall k | k in l || k in r || k in a || k in m || k in w || k in t
      ensures KeyOk(l, r, a, m, w, t, lo, hi, k)
    {}
  }

  /** The deleted list: the live rows whose key the batch does not have, by strictly rising id. */
  lemma DeletedRows(live: Rows, seen: set<nat>, w: map<string, Hash>)
    requires DistinctKeys(live) && IdsDistinct(ByKey(live))
    requires forall i {:trigger i in seen} :: i in seen <==> 0 <= i < |live| && KeyOf(live, i) in w
    ensures var deleted := Sort(Unseen(live, seen), ById);
            && DistinctKeys(deleted)
            && (forall k :: k in ByKey(deleted) <==> k in ByKey(live) && k !in w)
            && (forall k :: k in ByKey(deleted) ==> ByKey(deleted)[k] == ByKey(live)[k])
            && (forall i, j :: 0 <= i < j < |deleted| ==> deleted[i].id < deleted[j].id)
  {
    UnseenRows(live, seen, w);
    var unseen, deleted := Unseen(live, seen), Sort(Unseen(live, seen), ById);
    SortSorts(unseen, ById);
    SameRows(unseen, deleted);
    forall i, j | 0 <= i < j < |deleted|
      ensures deleted[i].id < deleted[j].id
    {
      RisingIds(deleted, ByKey(live), i, j);
    }
  }

  lemma RisingIds(deleted: Rows, l: Keyed, i: nat, j: nat)
    requires DistinctKeys(deleted) && IdsDistinct(l) && SortedBy(deleted, ById) && i < j < |deleted|
    requires forall k :: k in ByKey(deleted) ==> k in l && ByKey(deleted)[k] == l[k]
    ensures deleted[i].id < deleted[j].id
  {
    assert ById(deleted[i], deleted[j]);
    assert Keys(deleted)[i] != Keys(deleted)[j];
    RowAt(deleted, i);
    RowAt(deleted, j);
    assert IdsDiffer(l, KeyOf(deleted, i), KeyOf(deleted, j));
  }

  lemma {:induction false} UnseenRows(live: Rows, seen: set<nat>, w: map<string, Hash>)
    requires DistinctKeys(live)
    requires forall i {:trigger i in seen} :: 0 <= i < |live| ==> (i in seen <==> KeyOf(live, i) in w)
    ensures DistinctKeys(Unseen(live, seen))
    ensures forall k :: k in ByKey(Unseen(live, seen)) <==> k in ByKey(live) && k !in w
    ensures forall k :: k in ByKey(Unseen(live, seen)) ==> ByKey(Unseen(live, seen))[k] == ByKey(live)[k]
  {
    if live != [] {
      var n := |live| - 1;
      var init, key := Unseen(live[..n], seen), KeyOf(live, n);
      assert Keys(live[..n]) == Keys(live)[..n];
      UnseenRows(live[..n], seen, w);
      assert Find(live[..n], key).None?;
      AppendRow(init, live[n]);
    }
  }

  /** Rearranging rows with distinct keys leaves the same row under every key. */
  lemma SameRows(a: Rows, b: Rows)
    requires DistinctKeys(a) && multiset(a) == multiset(b)
    ensures DistinctKeys(b) && ByKey(a) == ByKey(b)
  {
    assert NoDuplicates(a) by {
      forall i, j | 0 <= i < j < |a| ensures a[i] != a[j] {
        assert Keys(a)[i] != Keys(a)[j];
      }
    }
    NoDuplicatesPermuted(a, b);
    forall i, j | 0 <= i < j < |b|
      ensures Keys(b)[i] != Keys(b)[j]
    {
      assert b[i] in multiset(a) && b[j] in multiset(a);
      RowIn(a, b[i]);
      RowIn(a, b[j]);
    }
    forall k | k in ByKey(a)
      ensures k in ByKey(b) && ByKey(a)[k] == ByKey(b)[k]
    {
      var x := a[Find(a, k).value];
      assert x in multiset(b);
      RowIn(b, x);
    }
    forall k | k in ByKey(b)
      ensures k in ByKey(a)
    {
      var x := b[Find(b, k).value];
      assert x in multiset(a);
      RowIn(a, x);
    }
  }

  lemma RowIn(rows: Rows, x: Stored)
    requires DistinctKeys(rows) && x in rows
    ensures x.chunk.key in ByKey(rows) && ByKey(rows)[x.chunk.key] == x
  {
    var i :| 0 <= i < |rows| && rows[i] == x;
    RowAt(rows, i);
  }

  // ---- Batches whose keys are distinct, as every walk and every path change produces ----

  function BatchKeys(batch: seq<Chunk>): (ks: seq<string>)
    ensures |ks| == |batch| && forall i :: 0 <= i < |batch| ==> ks[i] == batch[i].key
  {
    seq(|batch|, i requires 0 <= i < |batch| => batch[i].key)
  }

  /** The rows whose key the live table does not have, in order. */
  ghost function NewRows(live: Rows, rows: Rows): Rows {
    if rows == [] then []
    else NewRows(live, rows[..|rows| - 1]) + if rows[|rows| - 1].chunk.key in ByKey(live) then [] else [rows[|rows| - 1]]
  }

  /** The rows whose key the live table has under another hash, in order. */
  ghost function ChangedRows(live: Rows, rows: Rows): Rows {
    if rows == [] then []
    else
      var row := rows[|rows| - 1];
      ChangedRows(live, rows[..|rows| - 1])
      + if row.chunk.key in ByKey(live) && ByKey(live)[row.chunk.key].chunk.hash != row.chunk.hash then [row] else []
  }

  /** With distinct keys the table keeps the batch's order, and the change lists are exact, row for row and in order. */
  lemma {:induction false} DistinctBatch(live: Rows, nextId: nat, batch: seq<Chunk>)
    requires WellFormed(live, nextId) && NoDuplicates(BatchKeys(batch))
    ensures var n := ApplyAll(live, nextId, batch);
            && Keys(n.entries) == BatchKeys(batch)
            && n.added == NewRows(live, n.entries)
            && n.modified == ChangedRows(live, n.entries)
  {
    if batch != [] {
      var init, inc := batch[..|batch| - 1], batch[|batch| - 1];
      assert BatchKeys(batch) == BatchKeys(init) + [inc.key];
      DistinctBatch(live, nextId, init);
      var p := ApplyAll(live, nextId, init);
      assert inc.key !in Keys(p.entries);
      DistinctStep(live, p, inc);
    }
  }

  lemma ListsNext(live: Rows, rows: Rows, row: Stored)
    ensures NewRows(live, rows + [row]) == NewRows(live, rows) + if row.chunk.key in ByKey(live) then [] else [row]
    ensures ChangedRows(live, rows + [row])
         == ChangedRows(live, rows) + if row.chunk.key in ByKey(live) && ByKey(live)[row.chunk.key].chunk.hash != row.chunk.hash then [row] else []
    ensures Keys(rows + [row]) == Keys(rows) + [row.chunk.key]
  {
    assert (rows + [row])[..|rows|] == rows;
  }

  /** A chunk with a new key adds one row at the end, to the table and to at most one list. */
  lemma DistinctStep(live: Rows, p: Next, inc: Chunk)
    requires inc.key !in Keys(p.entries) && p.added == NewRows(live, p.entries) && p.modified == ChangedRows(live, p.entries)
    ensures var n := Apply(p, live, inc);
            && Keys(n.entries) == Keys(p.entries) + [inc.key]
            && n.added == NewRows(live, n.entries) && n.modified == ChangedRows(live, n.entries)
  {
    FindNone(p.entries, inc.key);
    var was := Find(live, inc.key);
    var row := if was.None? then Stored(p.nextId, inc)
               else Stored(live[was.value].id, if live[was.value].chunk.hash != inc.hash then inc else live[was.value].chunk);
    assert Apply(p, live, inc).entries == p.entries + [row];
    ListsNext(live, p.entries, row);
    NoTail(p.added);
    NoTail(p.modified);
  }

  /**
   A repeated key can leave a row in `modified` that did not change: its hash went away and came back.
   The list is exactly the rows whose hash moved if and only if no key of the batch does that.
   */
  ghost predicate CameBack(live: Rows, batch: seq<Chunk>, k: string) {
    && k in ByKey(live) && k in LastWins(batch) && LastWins(batch)[k] == ByKey(live)[k].chunk.hash
    && exists i :: 0 <= i < |batch| && batch[i].key == k && batch[i].hash != ByKey(live)[k].chunk.hash
  }

  /** The `modified` list has `k` exactly when both tables do, under different hashes. */
  ghost predicate ExactFor(l: Keyed, r: Keyed, m: Keyed, k: string) {
    k in m <==> k in l && k in r && r[k].chunk.hash != l[k].chunk.hash
  }

  ghost predicate ModifiedExact(l: Keyed, r: Keyed, m: Keyed) {
    forall k :: ExactFor(l, r, m, k)
  }

  lemma ModifiedIsExactIff(live: Rows, nextId: nat, batch: seq<Chunk>)
    requires WellFormed(live, nextId)
    ensures var s := Sync(live, nextId, batch);
            ModifiedExact(ByKey(live), ByKey(s.entries), ByKey(s.changes.modified)) <==> !exists k :: CameBack(live, batch, k)
  {
    var s := Sync(live, nextId, batch);
    forall k
      ensures ExactFor(ByKey(live), ByKey(s.entries), ByKey(s.changes.modified), k) <==> !CameBack(live, batch, k)
    {
      ExactForIff(live, nextId, batch, k);
    }
  }

  lemma ExactForIff(live: Rows, nextId: nat, batch: seq<Chunk>, k: string)
    requires WellFormed(live, nextId)
    ensures var s := Sync(live, nextId, batch);
            ExactFor(ByKey(live), ByKey(s.entries), ByKey(s.changes.modified), k) <==> !CameBack(live, batch, k)
  {
    ApplyAllState(live, nextId, batch);
    var n := ApplyAll(live, nextId, batch);
    var l, w, t := ByKey(live), LastWins(batch), Touched(ByKey(live), batch);
    assert KeyOk(l, ByKey(n.entries), ByKey(n.added), ByKey(n.modified), w, t, nextId, n.nextId, k);
    TouchedIff(l, batch, k);
  }

  lemma {:induction false} TouchedIff(l: Keyed, batch: seq<Chunk>, k: string)
    ensures k in Touched(l, batch) <==> k in l && exists i :: 0 <= i < |batch| && batch[i].key == k && batch[i].hash != l[k].chunk.hash
  {
    if batch != [] {
      var n := |batch| - 1;
      TouchedIff(l, batch[..n], k);
      assert forall i :: 0 <= i < n ==> batch[..n][i] == batch[i];
    }
  }

  /** The concrete case: one row, and a batch that sends its hash away and back. */
  lemma ModifiedCanBeInexact(chunk: Chunk, other: Hash)
    requires other != chunk.hash
    ensures var (live, batch) := ([Stored(1, chunk)], [chunk.(hash := other), chunk]);
            WellFormed(live, 2) && CameBack(live, batch, chunk.key) && chunk.key in ByKey(Sync(live, 2, batch).changes.modified)
  {
    var live, batch := [Stored(1, chunk)], [chunk.(hash := other), chunk];
    AppendRow([], Stored(1, chunk));
    assert [] + [Stored(1, chunk)] == live;
    assert forall k, k' :: IdsDiffer(ByKey(live), k, k');
    assert batch[0].key == chunk.key && batch[0].hash != chunk.hash;
    assert batch[..1] == [batch[0]] && batch[..1][..0] == [];
    assert WellFormed(live, 2);
    SyncChanges(live, 2, batch);
    TouchedIff(ByKey(live), batch, chunk.key);
  }

  lemma FindNone(rows: Rows, key: string)
    requires key !in Keys(rows)
    ensures Find(rows, key).None?
  {}

  // ---- The no-change fast path ----

  /** One matching chunk adds its live row unchanged. */
  lemma MatchingStep(live: Rows, nextId: nat, i: nat, inc: Chunk, seen: set<nat>)
    requires WellFormed(live, nextId) && i < |live| && inc.key == KeyOf(live, i) && inc.hash == live[i].chunk.hash
    ensures Apply(Next(live[..i], nextId, [], [], seen), live, inc) == Next(live[..i + 1], nextId, [], [], seen + {i})
  {
    RowAt(live, i);
    assert Keys(live[..i]) == Keys(live)[..i];
    FindNone(live[..i], inc.key);
    LastStep(live, i);
  }

  lemma {:induction false} MatchingPrefix(live: Rows, nextId: nat, batch: seq<Chunk>, i: nat)
    requires WellFormed(live, nextId) && |batch| == |live| && i <= |live|
    requires forall j :: 0 <= j < |live| ==> batch[j].key == KeyOf(live, j) && batch[j].hash == live[j].chunk.hash
    ensures ApplyAll(live, nextId, batch[..i]) == Next(live[..i], nextId, [], [], Upto(i))
  {
    if i > 0 {
      var j := i - 1;
      MatchingPrefix(live, nextId, batch, j);
      LastStep(batch, j);
      MatchingStep(live, nextId, j, batch[j], Upto(j));
      assert batch[..i][i - 1] == batch[j];
    }
  }

  /** On a batch that matches the table, the full diff would rebuild the same rows and report nothing. */
  lemma FastPathAgrees(live: Rows, nextId: nat, batch: seq<Chunk>)
    requires WellFormed(live, nextId) && |batch| == |live|
    requires forall j :: 0 <= j < |live| ==> batch[j].key == KeyOf(live, j) && batch[j].hash == live[j].chunk.hash
    ensures Sync(live, nextId, batch) == Synced(live, nextId, Changes([], [], []))
  {
    MatchingPrefix(live, nextId, batch, |live|);
    assert batch[..|live|] == batch && live[..|live|] == live;
    AllSeen(live, |live|);
  }

  lemma {:induction false} AllSeen(live: Rows, n: nat)
    requires |live| <= n
    ensures Unseen(live, Upto(n)) == []
  {
    if live != [] {
      UptoHas(n, |live| - 1);
      AllSeen(live[..|live| - 1], n);
    }
  }

  function Upto(n: nat): set<nat> {
    if n == 0 then {} else Upto(n - 1) + {n - 1}
  }

  lemma {:induction false} UptoHas(n: nat, j: nat)
    requires j < n
    ensures j in Upto(n)
  {
    if j < n - 1 {
      UptoHas(n - 1, j);
    }
  }

  // ---- Runs ----

  /** The table after a run of successful syncs; a failed sync and a save followed by a load change nothing. */
  ghost function Run(live: Rows, nextId: nat, batches: seq<seq<Chunk>>): Synced {
    if batches == [] then Synced(live, nextId, Changes([], [], []))
    else
      var before := Run(live, nextId, batches[..|batches| - 1]);
      Sync(before.entries, before.nextId, batches[|batches| - 1])
  }

  /** Whatever the run, the table stays well formed, and an id from before the run still names the key it named then. */
  lemma {:induction false} RunKeepsIds(live: Rows, nextId: nat, batches: seq<seq<Chunk>>)
    requires WellFormed(live, nextId)
    ensures var r := Run(live, nextId, batches);
            && WellFormed(r.entries, r.nextId) && nextId <= r.nextId
            && forall k :: k in ByKey(r.entries) && ByKey(r.entries)[k].id < nextId ==>
                 k in ByKey(live) && ByKey(live)[k].id == ByKey(r.entries)[k].id
  {
    if batches != [] {
      var init := batches[..|batches| - 1];
      RunKeepsIds(live, nextId, init);
      var before := Run(live, nextId, init);
      SyncMeaning(before.entries, before.nextId, batches[|batches| - 1]);
    }
  }

  /** No id is ever given to a second key: a row now and a row any number of syncs later with one id have one key. */
  lemma NoIdIsReused(live: Rows, nextId: nat, first: seq<seq<Chunk>>, rest: seq<seq<Chunk>>, k: string, k': string)
    requires WellFormed(live, nextId)
    requires var now := Run(live, nextId, first);
             var later := Run(now.entries, now.nextId, rest);
             && k in ByKey(now.entries) && k' in ByKey(later.entries)
             && ByKey(now.entries)[k].id == ByKey(later.entries)[k'].id
    ensures k == k'
  {
    RunKeepsIds(live, nextId, first);
    var now := Run(live, nextId, first);
    RunKeepsIds(now.entries, now.nextId, rest);
    assert IdsDiffer(ByKey(now.entries), k, k');
  }
}
