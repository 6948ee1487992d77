/**
 Re-indexing some paths against walking the whole tree. A tree is a map from path to the chunks its
 file parses to; `home` is the file a key belongs to, which keys of different files never share.
 */
module Incremental {
  import opened Common
  import opened TableSync
  import opened TableTheorems
  import opened ChunkTables
  import opened VectorIndexes
  import opened EmbedUnique
  import opened VectorSync
  import Locks

  type Tree = map<string, seq<Chunk>>

  /** The chunks of one path: none for a path with no file, or a file that parses to nothing. */
  function FileOf(t: Tree, path: string): seq<Chunk> {
    if path in t then t[path] else []
  }

  function Lookup(m: map<string, Hash>, k: string): Option<Hash> {
    if k in m then Some(m[k]) else None
  }

  /** A chunk carries its own path, and its key belongs to that path. */
  ghost predicate ChunkHome(c: Chunk, home: string -> string) {
    c.path == home(c.key)
  }

  ghost predicate AllHome(cs: seq<Chunk>, home: string -> string) {
    forall i {:trigger ChunkHome(cs[i], home)} :: 0 <= i < |cs| ==> ChunkHome(cs[i], home)
  }

  ghost predicate TreeHome(t: Tree, home: string -> string) {
    forall p {:trigger FileOf(t, p)} :: AllHome(FileOf(t, p), home) && forall i :: 0 <= i < |FileOf(t, p)| ==> FileOf(t, p)[i].path == p
  }

  ghost predicate RowsHome(rows: Rows, home: string -> string) {
    forall i {:trigger ChunkHome(rows[i].chunk, home)} :: 0 <= i < |rows| ==> ChunkHome(rows[i].chunk, home)
  }

  /** Key by key, the map holds what the key's own file says. */
  ghost predicate SameAsTree(m: map<string, Hash>, t: Tree, home: string -> string) {
    forall k {:trigger Lookup(m, k)} :: Lookup(m, k) == Lookup(LastWins(FileOf(t, home(k))), k)
  }

  /** The table is what the tree says. */
  ghost predicate MatchesTree(rows: Rows, t: Tree, home: string -> string) {
    RowsHome(rows, home) && SameAsTree(KeyHash(rows), t, home)
  }

  /** Every file that differs between the trees is named, and what is named deleted is gone. */
  ghost predicate Covers(t: Tree, t': Tree, rechunk: seq<string>, deleted: seq<string>) {
    forall p {:trigger FileOf(t', p)} :: p !in rechunk ==> FileOf(t', p) == if p in deleted then [] else FileOf(t, p)
  }

  // ---- What a batch says of one key ----

  lemma {:induction false} LastWinsSplit(a: seq<Chunk>, b: seq<Chunk>, k: string)
    ensures Lookup(LastWins(a + b), k) == if k in LastWins(b) then Lookup(LastWins(b), k) else Lookup(LastWins(a), k)
  {
    if b == [] {
      assert a + b == a;
    } else {
      var b', c := b[..|b| - 1], b[|b| - 1];
      assert (a + b)[..|a + b| - 1] == a + b';
      LastWinsSplit(a, b', k);
    }
  }

  /** A key is only in a batch that has a chunk with that key. */
  lemma {:induction false} KeyFromChunk(cs: seq<Chunk>, k: string) returns (i: nat)
    requires k in LastWins(cs)
    ensures i < |cs| && cs[i].key == k
  {
    var n := |cs| - 1;
    if cs[n].key == k {
      i := n;
    } else {
      i := KeyFromChunk(cs[..n], k);
    }
  }

  /** A file only speaks of its own keys. */
  lemma FileSpeaksForItself(t: Tree, home: string -> string, p: string, k: string)
    requires TreeHome(t, home) && k in LastWins(FileOf(t, p))
    ensures home(k) == p
  {
    var i := KeyFromChunk(FileOf(t, p), k);
    assert ChunkHome(FileOf(t, p)[i], home);
  }

  /** The chunks of a list of files, in order. */
  function Files(t: Tree, paths: seq<string>): seq<Chunk> {
    if paths == [] then [] else Files(t, paths[..|paths| - 1]) + FileOf(t, paths[|paths| - 1])
  }

  lemma {:induction false} FilesSay(t: Tree, home: string -> string, paths: seq<string>, k: string)
    requires TreeHome(t, home)
    ensures Lookup(LastWins(Files(t, paths)), k) == if home(k) in paths then Lookup(LastWins(FileOf(t, home(k))), k) else None
  {
    if paths != [] {
      var n := |paths| - 1;
      var rest, p := paths[..n], paths[n];
      FilesSay(t, home, rest, k);
      LastWinsSplit(Files(t, rest), FileOf(t, p), k);
      assert paths == rest + [p];
      if k in LastWins(FileOf(t, p)) {
        FileSpeaksForItself(t, home, p, k);
      }
    }
  }

  /** The rows `batch_add_table_except` carries over. */
  function Except(rows: Rows, skip: seq<string>): seq<Chunk> {
    if rows == [] then []
    else
      var row := rows[|rows| - 1];
      Except(rows[..|rows| - 1], skip) + if row.chunk.path in skip then [] else [row.chunk]
  }

  lemma {:induction false} ExceptSays(rows: Rows, home: string -> string, skip: seq<string>, k: string)
    requires RowsHome(rows, home)
    ensures Lookup(LastWins(Except(rows, skip)), k) == if home(k) in skip then None else Lookup(KeyHash(rows), k)
  {
    if rows != [] {
      var n := |rows| - 1;
      var rest, c := rows[..n], rows[n].chunk;
      assert RowsHome(rest, home) by {
        forall i {:trigger ChunkHome(rest[i].chunk, home)} | 0 <= i < |rest|
          ensures ChunkHome(rest[i].chunk, home)
        {
          assert ChunkHome(rows[i].chunk, home);
        }
      }
      ExceptSays(rest, home, skip, k);
      assert ChunkHome(rows[n].chunk, home);
      if c.path !in skip {
        assert Except(rows, skip)[..|Except(rest, skip)|] == Except(rest, skip);
      } else {
        assert Except(rows, skip) == Except(rest, skip);
      }
    }
  }

  /** The batch of `apply_path_changes`. */
  function PathBatch(rows: Rows, t: Tree, rechunk: seq<string>, deleted: seq<string>): seq<Chunk> {
    Except(rows, deleted + rechunk) + Files(t, rechunk)
  }

  /** Carrying over the rest and re-chunking what changed says exactly what the new tree says. */
  lemma PathBatchIsTree(rows: Rows, t: Tree, t': Tree, home: string -> string, rechunk: seq<string>, deleted: seq<string>)
    requires MatchesTree(rows, t, home) && TreeHome(t', home) && Covers(t, t', rechunk, deleted)
    ensures SameAsTree(LastWins(PathBatch(rows, t', rechunk, deleted)), t', home)
  {
    var batch := PathBatch(rows, t', rechunk, deleted);
    forall k {:trigger Lookup(LastWins(batch), k)} | true
      ensures Lookup(LastWins(batch), k) == Lookup(LastWins(FileOf(t', home(k))), k)
    {
      LastWinsSplit(Except(rows, deleted + rechunk), Files(t', rechunk), k);
      ExceptSays(rows, home, deleted + rechunk, k);
      FilesSay(t', home, rechunk, k);
      assert Lookup(KeyHash(rows), k) == Lookup(LastWins(FileOf(t, home(k))), k);
    }
  }

  /** So does a walk, in whatever order it meets the files. */
  lemma WalkBatchIsTree(t: Tree, home: string -> string, order: seq<string>)
    requires TreeHome(t, home) && forall p :: p in t ==> p in order
    ensures SameAsTree(LastWins(Files(t, order)), t, home)
  {
    forall k {:trigger Lookup(LastWins(Files(t, order)), k)} | true
      ensures Lookup(LastWins(Files(t, order)), k) == Lookup(LastWins(FileOf(t, home(k))), k)
    {
      FilesSay(t, home, order, k);
    }
  }

  // ---- The table afterwards ----

  lemma {:induction false} AppliedHome(live: Rows, nextId: nat, batch: seq<Chunk>, home: string -> string)
    requires RowsHome(live, home) && AllHome(batch, home)
    ensures RowsHome(ApplyAll(live, nextId, batch).entries, home)
  {
    if batch != [] {
      var n := |batch| - 1;
      var rest := batch[..n];
      assert AllHome(rest, home) by {
        forall i {:trigger ChunkHome(rest[i], home)} | 0 <= i < |rest|
          ensures ChunkHome(rest[i], home)
        {
          assert ChunkHome(batch[i], home);
        }
      }
      AppliedHome(live, nextId, rest, home);
      assert ChunkHome(batch[n], home);
      OneHome(ApplyAll(live, nextId, rest), live, batch[n], home);
    }
  }

  lemma OneHome(n: Next, live: Rows, inc: Chunk, home: string -> string)
    requires RowsHome(live, home) && RowsHome(n.entries, home) && ChunkHome(inc, home)
    ensures RowsHome(Apply(n, live, inc).entries, home)
  {
    var was := Find(live, inc.key);
    assert was.Some? ==> ChunkHome(live[was.value].chunk, home);
    var rows := Apply(n, live, inc).entries;
    forall i {:trigger ChunkHome(rows[i].chunk, home)} | 0 <= i < |rows|
      ensures ChunkHome(rows[i].chunk, home)
    {
      assert i < |n.entries| ==> ChunkHome(n.entries[i].chunk, home);
    }
  }

  lemma {:induction false} FilesHome(t: Tree, home: string -> string, paths: seq<string>)
    requires TreeHome(t, home)
    ensures AllHome(Files(t, paths), home)
  {
    if paths != [] {
      var n := |paths| - 1;
      FilesHome(t, home, paths[..n]);
      JoinHome(Files(t, paths[..n]), FileOf(t, paths[n]), home);
    }
  }

  lemma JoinHome(a: seq<Chunk>, b: seq<Chunk>, home: string -> string)
    requires AllHome(a, home) && AllHome(b, home)
    ensures AllHome(a + b, home)
  {
    forall i {:trigger ChunkHome((a + b)[i], home)} | 0 <= i < |a + b|
      ensures ChunkHome((a + b)[i], home)
    {
      assert if i < |a| then ChunkHome(a[i], home) else ChunkHome(b[i - |a|], home);
    }
  }

  lemma {:induction false} ExceptHome(rows: Rows, skip: seq<string>, home: string -> string)
    requires RowsHome(rows, home)
    ensures AllHome(Except(rows, skip), home)
  {
    if rows != [] {
      var n := |rows| - 1;
      assert forall i :: 0 <= i < n ==> ChunkHome(rows[..n][i].chunk, home) by {
        forall i | 0 <= i < n ensures ChunkHome(rows[..n][i].chunk, home) {
          assert ChunkHome(rows[i].chunk, home);
        }
      }
      ExceptHome(rows[..n], skip, home);
      assert ChunkHome(rows[n].chunk, home);
      JoinHome(Except(rows[..n], skip), if rows[n].chunk.path in skip then [] else [rows[n].chunk], home);
    }
  }

  /** Syncing a batch that says what a tree says leaves a table that matches the tree. */
  lemma SyncMatchesTree(live: Rows, nextId: nat, batch: seq<Chunk>, t: Tree, home: string -> string)
    requires WellFormed(live, nextId) && RowsHome(live, home) && AllHome(batch, home)
    requires SameAsTree(LastWins(batch), t, home)
    ensures MatchesTree(Sync(live, nextId, batch).entries, t, home)
  {
    SyncMeaning(live, nextId, batch);
    AppliedHome(live, nextId, batch, home);
  }

  /** Two tables that match one tree have the same keys with the same hashes. */
  lemma MatchesTreeDetermines(a: Rows, b: Rows, t: Tree, home: string -> string)
    requires MatchesTree(a, t, home) && MatchesTree(b, t, home)
    ensures KeyHash(a) == KeyHash(b)
  {
    forall k
      ensures Lookup(KeyHash(a), k) == Lookup(KeyHash(b), k)
    {}
    forall k | k in KeyHash(a) || k in KeyHash(b)
      ensures k in KeyHash(a) && k in KeyHash(b) && KeyHash(a)[k] == KeyHash(b)[k]
    {
      assert Lookup(KeyHash(a), k) == Lookup(KeyHash(b), k);
    }
  }

  /**
   Incremental re-indexing refines walking the new tree: same keys, same hashes, and every key that
   survives keeps the id it had, whichever way the table got there and in whatever order the walk went.
   */
  lemma IncrementalRefinesFull(live: Rows, nextId: nat, walked: Rows, walkedNext: nat, t: Tree, t': Tree, home: string -> string,
                               rechunk: seq<string>, deleted: seq<string>, order: seq<string>)
    requires WellFormed(live, nextId) && WellFormed(walked, walkedNext) && RowsHome(walked, home)
    requires MatchesTree(live, t, home) && TreeHome(t', home) && Covers(t, t', rechunk, deleted)
    requires forall p :: p in t' ==> p in order
    ensures var (inc, full) := (Sync(live, nextId, PathBatch(live, t', rechunk, deleted)).entries, Sync(walked, walkedNext, Files(t', order)).entries);
            && MatchesTree(inc, t', home) && KeyHash(inc) == KeyHash(full)
            && (forall k :: k in ByKey(inc) && k in ByKey(live) ==> ByKey(inc)[k].id == ByKey(live)[k].id)
  {
    var batch := PathBatch(live, t', rechunk, deleted);
    PathBatchIsTree(live, t, t', home, rechunk, deleted);
    ExceptHome(live, deleted + rechunk, home);
    FilesHome(t', home, rechunk);
    JoinHome(Except(live, deleted + rechunk), Files(t', rechunk), home);
    SyncMatchesTree(live, nextId, batch, t', home);
    SyncMeaning(live, nextId, batch);
    WalkBatchIsTree(t', home, order);
    FilesHome(t', home, order);
    SyncMatchesTree(walked, walkedNext, Files(t', order), t', home);
    MatchesTreeDetermines(Sync(live, nextId, batch).entries, Sync(walked, walkedNext, Files(t', order)).entries, t', home);
  }

  // ---- What the rows hold ----

  /** The last chunk of a key, if there is one. */
  function LastChunk(cs: seq<Chunk>, k: string): (r: Option<Chunk>)
    ensures r.Some? <==> k in LastWins(cs)
    ensures r.Some? ==> r.value.key == k && r.value.hash == LastWins(cs)[k]
  {
    if cs == [] then None
    else if cs[|cs| - 1].key == k then Some(cs[|cs| - 1])
    else LastChunk(cs[..|cs| - 1], k)
  }

  lemma {:induction false} LastChunkIs(cs: seq<Chunk>, k: string, i: nat)
    requires LastAt(cs, k, i)
    ensures LastChunk(cs, k) == Some(cs[i])
  {
    var n := |cs| - 1;
    if i < n {
      assert LastAt(cs[..n], k, i);
      LastChunkIs(cs[..n], k, i);
    }
  }

  lemma {:induction false} LastChunkAt(cs: seq<Chunk>, k: string) returns (i: nat)
    requires LastChunk(cs, k).Some?
    ensures LastAt(cs, k, i) && LastChunk(cs, k) == Some(cs[i])
  {
    var n := |cs| - 1;
    i := n;
    if cs[n].key != k {
      i := LastChunkAt(cs[..n], k);
    }
  }

  lemma {:induction false} LastChunkSplit(a: seq<Chunk>, b: seq<Chunk>, k: string)
    ensures LastChunk(a + b, k) == if LastChunk(b, k).Some? then LastChunk(b, k) else LastChunk(a, k)
  {
    if b == [] {
      assert a + b == a;
    } else {
      var b' := b[..|b| - 1];
      assert (a + b)[..|a + b| - 1] == a + b';
      LastChunkSplit(a, b', k);
    }
  }

  lemma {:induction false} FilesLast(t: Tree, home: string -> string, paths: seq<string>, k: string)
    requires TreeHome(t, home)
    ensures LastChunk(Files(t, paths), k) == if home(k) in paths then LastChunk(FileOf(t, home(k)), k) else None
  {
    if paths != [] {
      var n := |paths| - 1;
      var rest, p := paths[..n], paths[n];
      FilesLast(t, home, rest, k);
      LastChunkSplit(Files(t, rest), FileOf(t, p), k);
      assert paths == rest + [p];
      if LastChunk(FileOf(t, p), k).Some? {
        FileSpeaksForItself(t, home, p, k);
      }
    }
  }

  /** What is carried over is a row's chunk as it stands. */
  lemma {:induction false} ExceptLast(rows: Rows, skip: seq<string>, k: string) returns (i: nat)
    requires LastChunk(Except(rows, skip), k).Some?
    ensures i < |rows| && LastChunk(Except(rows, skip), k) == Some(rows[i].chunk) && rows[i].chunk.key == k
  {
    var n := |rows| - 1;
    var one := if rows[n].chunk.path in skip then [] else [rows[n].chunk];
    LastChunkSplit(Except(rows[..n], skip), one, k);
    i := n;
    if LastChunk(one, k).None? {
      i := ExceptLast(rows[..n], skip, k);
    }
  }

  /**
   A row of key `k` holds, in every field, the last chunk its file lists under that key; or it still holds the
   chunk the table had for it, and then that has the hash the file lists.
   */
  ghost predicate RowTells(c: Chunk, l: Keyed, t: Tree, path: string, k: string) {
    path in t && exists i: nat {:trigger LastAt(t[path], k, i)} :: LastAt(t[path], k, i) && (c == t[path][i] || (k in l && c == l[k].chunk && c.hash == t[path][i].hash))
  }

  ghost predicate RowsTell(rows: Keyed, l: Keyed, t: Tree, home: string -> string) {
    forall k {:trigger RowTells(rows[k].chunk, l, t, home(k), k)} :: k in rows ==> RowTells(rows[k].chunk, l, t, home(k), k)
  }

  lemma FileTells(c: Chunk, l: Keyed, t: Tree, path: string, k: string)
    requires LastChunk(FileOf(t, path), k).Some?
    requires c == LastChunk(FileOf(t, path), k).value || (k in l && c == l[k].chunk && c.hash == LastChunk(FileOf(t, path), k).value.hash)
    ensures RowTells(c, l, t, path, k)
  {
    var i := LastChunkAt(FileOf(t, path), k);
  }

  /** A batch that lists, under each key, what the key's file or the old row holds leaves rows that tell so. */
  lemma RowsTellBatch(live: Rows, nextId: nat, batch: seq<Chunk>, t: Tree, home: string -> string)
    requires WellFormed(live, nextId) && MatchesTree(Sync(live, nextId, batch).entries, t, home)
    requires forall k {:trigger LastChunk(batch, k)} :: LastChunk(batch, k).Some? ==>
               LastChunk(batch, k) == LastChunk(FileOf(t, home(k)), k) || (k in ByKey(live) && LastChunk(batch, k) == Some(ByKey(live)[k].chunk))
    ensures RowsTell(ByKey(Sync(live, nextId, batch).entries), ByKey(live), t, home)
  {
    var l, rows := ByKey(live), ByKey(Sync(live, nextId, batch).entries);
    forall k {:trigger RowTells(rows[k].chunk, l, t, home(k), k)} | k in rows
      ensures RowTells(rows[k].chunk, l, t, home(k), k)
    {
      SyncRows(live, nextId, batch, k);
      var i: nat :| LastAt(batch, k, i) && rows[k].chunk == Held(l, batch, i);
      LastChunkIs(batch, k, i);
      assert Lookup(KeyHash(Sync(live, nextId, batch).entries), k) == Lookup(LastWins(FileOf(t, home(k))), k);
      FileTells(rows[k].chunk, l, t, home(k), k);
    }
  }

  lemma KeptIsRow(live: Rows, nextId: nat, skip: seq<string>, k: string)
    requires WellFormed(live, nextId) && LastChunk(Except(live, skip), k).Some?
    ensures k in ByKey(live) && LastChunk(Except(live, skip), k) == Some(ByKey(live)[k].chunk)
  {
    var i := ExceptLast(live, skip, k);
    RowAt(live, i);
  }

  lemma PathRowsTell(live: Rows, nextId: nat, t: Tree, t': Tree, home: string -> string, rechunk: seq<string>, deleted: seq<string>)
    requires WellFormed(live, nextId) && MatchesTree(live, t, home) && TreeHome(t', home) && Covers(t, t', rechunk, deleted)
    requires MatchesTree(Sync(live, nextId, PathBatch(live, t', rechunk, deleted)).entries, t', home)
    ensures RowsTell(ByKey(Sync(live, nextId, PathBatch(live, t', rechunk, deleted)).entries), ByKey(live), t', home)
  {
    var kept, batch := Except(live, deleted + rechunk), PathBatch(live, t', rechunk, deleted);
    forall k {:trigger LastChunk(batch, k)} | LastChunk(batch, k).Some?
      ensures LastChunk(batch, k) == LastChunk(FileOf(t', home(k)), k) || (k in ByKey(live) && LastChunk(batch, k) == Some(ByKey(live)[k].chunk))
    {
      LastChunkSplit(kept, Files(t', rechunk), k);
      FilesLast(t', home, rechunk, k);
      if LastChunk(Files(t', rechunk), k).None? {
        KeptIsRow(live, nextId, deleted + rechunk, k);
      }
    }
    RowsTellBatch(live, nextId, batch, t', home);
  }

  lemma WalkRowsTell(live: Rows, nextId: nat, t: Tree, home: string -> string, order: seq<string>)
    requires WellFormed(live, nextId) && TreeHome(t, home) && (forall p :: p in t ==> p in order)
    requires MatchesTree(Sync(live, nextId, Files(t, order)).entries, t, home)
    ensures RowsTell(ByKey(Sync(live, nextId, Files(t, order)).entries), ByKey(live), t, home)
  {
    forall k {:trigger LastChunk(Files(t, order), k)} | LastChunk(Files(t, order), k).Some?
      ensures LastChunk(Files(t, order), k) == LastChunk(FileOf(t, home(k)), k)
    {
      FilesLast(t, home, order, k);
    }
    RowsTellBatch(live, nextId, Files(t, order), t, home);
  }

  // ---- Runs ----

  /** One round of the watch loop: the tree as it now is, and the paths reported since. */
  datatype Edit = Edit(tree: Tree, rechunk: seq<string>, deleted: seq<string>)

  /** Each edit names every file that differs from the tree before it. */
  ghost predicate AllCovered(t: Tree, edits: seq<Edit>, home: string -> string) {
    edits == [] ||
    var n := |edits| - 1;
    && AllCovered(t, edits[..n], home)
    && TreeHome(edits[n].tree, home)
    && Covers(LastTree(t, edits[..n]), edits[n].tree, edits[n].rechunk, edits[n].deleted)
  }

  function LastTree(t: Tree, edits: seq<Edit>): Tree {
    if edits == [] then t else edits[|edits| - 1].tree
  }

  ghost function RunEdits(live: Rows, nextId: nat, edits: seq<Edit>): Synced {
    if edits == [] then Synced(live, nextId, Changes([], [], []))
    else
      var (before, e) := (RunEdits(live, nextId, edits[..|edits| - 1]), edits[|edits| - 1]);
      Sync(before.entries, before.nextId, PathBatch(before.entries, e.tree, e.rechunk, e.deleted))
  }

  /** After any run of covered edits the table is what the last tree says: nothing ever drifts. */
  lemma {:induction false} RunMatchesTree(live: Rows, nextId: nat, t: Tree, edits: seq<Edit>, home: string -> string)
    requires WellFormed(live, nextId) && MatchesTree(live, t, home) && AllCovered(t, edits, home)
    ensures var after := RunEdits(live, nextId, edits);
            WellFormed(after.entries, after.nextId) && MatchesTree(after.entries, LastTree(t, edits), home)
  {
    if edits != [] {
      var n := |edits| - 1;
      RunMatchesTree(live, nextId, t, edits[..n], home);
      var before, e := RunEdits(live, nextId, edits[..n]), edits[n];
      IncrementalRefinesFull(before.entries, before.nextId, before.entries, before.nextId, LastTree(t, edits[..n]), e.tree, home,
                             e.rechunk, e.deleted, Everywhere(e.tree));
      SyncMeaning(before.entries, before.nextId, PathBatch(before.entries, e.tree, e.rechunk, e.deleted));
    }
  }

  /** Some order in which a walk meets every file. */
  ghost function Everywhere(t: Tree): (order: seq<string>)
    ensures forall p :: p in t ==> p in order
  {
    Listed(t.Keys)
  }

  ghost function Listed(ps: set<string>): (order: seq<string>)
    ensures forall p :: p in ps ==> p in order
  {
    if ps == {} then [] else
      var p :| p in ps;
      [p] + Listed(ps - {p})
  }

  // ---- The operations ----

  /** `path_in_set`. */
  method PathInSet(path: string, paths: seq<string>) returns (found: bool)
    ensures found <==> path in paths
  {
    for i := 0 to |paths|
      invariant forall j :: 0 <= j < i ==> paths[j] != path
    {
      if path == paths[i] {
        return true;
      }
    }
    found := false;
  }

  /** `batch_add_table_except`. */
  method AddTableExcept(rows: Rows, skip: seq<string>) returns (st: Status, batch: seq<Chunk>)
    ensures st == Ok ==> batch == Except(rows, skip)
  {
    batch := [];
    for i := 0 to |rows|
      invariant batch == Except(rows[..i], skip)
    {
      assert rows[..i + 1][..i] == rows[..i];
      var skipped := PathInSet(rows[i].chunk.path, skip);
      if skipped {
        continue;
      }
      var ok := TryAlloc(|batch| + 1);
      if !ok {
        return OutOfMemory, batch;
      }
      batch := batch + [rows[i].chunk];
    }
    assert rows[..|rows|] == rows;
    st := Ok;
  }

  /** `parse_file`: a file that is gone, or not of a known language, yields nothing and is not an error. */
  method ParseFile(t: Tree, path: string) returns (st: Status, list: seq<Chunk>)
    ensures st == Ok ==> list == FileOf(t, path)
  {
    st := Outcome();
    list := if path in t then t[path] else [];
  }

  /** The parsing loops of `apply_path_changes` and of the walk. */
  method AddFiles(t: Tree, paths: seq<string>, start: seq<Chunk>) returns (st: Status, batch: seq<Chunk>)
    ensures st == Ok ==> batch == start + Files(t, paths)
  {
    batch := start;
    for i := 0 to |paths|
      invariant batch == start + Files(t, paths[..i])
    {
      assert paths[..i + 1][..i] == paths[..i];
      var list;
      st, list := ParseFile(t, paths[i]);
      if st != Ok {
        return;
      }
      var ok := TryAlloc(|batch| + |list|);
      if !ok {
        st := OutOfMemory;
        return;
      }
      batch := batch + list;
    }
    assert paths[..|paths|] == paths;
    st := Ok;
  }

  function Incomings(cs: seq<Chunk>): (batch: seq<Incoming>)
    ensures |batch| == |cs| && forall i :: 0 <= i < |cs| ==> batch[i] == Some(cs[i])
  {
    seq(|cs|, i requires 0 <= i < |cs| => Some(cs[i]))
  }

  /** An open handle answers from every row of the table. */
  ghost predicate HasRows(r: Repo)
    reads r, r.chunks, r.index
  {
    r.index != null ==> HasAll(r.eng, r.index.vectors, ByKey(r.chunks.entries))
  }

  /** An open handle answers from exactly the table's rows. */
  ghost predicate InStep(r: Repo)
    reads r, r.chunks, r.index
  {
    r.index != null ==> Agrees(r.eng, r.index.vectors, ByKey(r.chunks.entries))
  }

  ghost predicate IsOpen(r: Repo)
    reads r
  {
    r.index != null && r.vectorsOn
  }

  /**
   What a repository that offers itself to searches promises: every row, always, and only rows unless its last
   rebuild was tainted. The lock protocol asks the same of every sync it runs.
   */
  ghost predicate Honest(r: Repo)
    reads r, r.chunks, r.index
  {
    && Locks.HonestEnd(HasRows(r), r.ready, IsOpen(r))
    && (!r.tainted ==> Locks.HonestEnd(InStep(r), r.ready, IsOpen(r)))
  }

  /** `sync_table`: the table commits, or nothing happens; then the vectors follow, or the repository is not ready. */
  method SyncTable(r: Repo, batch: seq<Chunk>) returns (st: Status, ghost rebuilt: bool)
    requires r.chunks.Valid() && Honest(r)
    modifies r`index, r`ready, r`tainted, r.eng, r.files, r.chunks, r.index
    ensures r.chunks.Valid() && Honest(r) && (r.index == old(r.index) || r.index == null || fresh(r.index))
    ensures st == Ok ==> r.chunks.entries == Sync(old(r.chunks.entries), old(r.chunks.nextId), batch).entries
    ensures st == Ok && IsOpen(r) ==> r.files.main == Some(r.index.vectors)
    ensures st == Ok && IsOpen(r) && (rebuilt || old(HasRows(r))) ==> HasRows(r)
    ensures st == Ok && IsOpen(r) && !rebuilt && old(InStep(r)) ==> InStep(r)
    ensures st == Ok && IsOpen(r) && rebuilt ==> (InStep(r) <==> !r.tainted)
    ensures !rebuilt ==> r.tainted == old(r.tainted) && r.ready == old(r.ready)
    ensures st != Ok && !rebuilt ==> unchanged(r.chunks) && unchanged(r) && (r.index != null ==> unchanged(r.index))
    ensures rebuilt ==> (r.ready <==> st == Ok)
  {
    var changes;
    st, changes := r.chunks.SyncTable(Incomings(batch));
    rebuilt := false;
    if st != Ok {
      return;
    }
    assert Chunks(Incomings(batch)) == batch;
    ghost var leftover;
    ghost var applies, rebuilds;
    st, rebuilt, leftover, applies, rebuilds := r.SyncVectors(changes, old(r.chunks.entries), old(r.chunks.nextId), batch);
  }

  /** The lock protocol's view of a repository: equal versions mean that an open index has every row. */
  ghost predicate Shown(v: Locks.RepoState, r: Repo)
    reads r, r.chunks, r.index
  {
    v.ready == r.ready && v.isOpen == IsOpen(r) && v.index <= v.table && (v.table == v.index && IsOpen(r) ==> HasRows(r))
  }

  /** A sync is a run of the lock protocol: it may be started there, and its steps take the view of the repository along. */
  method SyncAsRun(r: Repo, batch: seq<Chunk>, ghost repo: nat, ghost calls: nat, ghost v: Locks.RepoState)
    returns (st: Status, ghost run: Locks.SyncRun)
    requires r.chunks.Valid() && Honest(r) && Shown(v, r)
    modifies r`index, r`ready, r`tainted, r.eng, r.files, r.chunks, r.index
    ensures r.chunks.Valid() && Honest(r) && Locks.HonestRun(run) && (st == Ok ==> run.Ran?)
    ensures Shown(Locks.Played(v, Locks.SyncSteps(repo, run), repo), r)
  {
    ghost var rebuilt;
    st, rebuilt := SyncTable(r, batch);
    run := if st == Ok || rebuilt then Locks.Ran(calls, HasRows(r), r.ready, IsOpen(r)) else Locks.Refused;
    Locks.SyncPlays(v, repo, run);
  }

  /** `walk_and_sync`, meeting the files in some order. */
  method WalkAndSync(r: Repo, t': Tree, order: seq<string>, ghost home: string -> string) returns (st: Status, ghost rebuilt: bool)
    requires r.chunks.Valid() && Honest(r) && RowsHome(r.chunks.entries, home)
    requires TreeHome(t', home) && forall p :: p in t' ==> p in order
    modifies r`index, r`ready, r`tainted, r.eng, r.files, r.chunks, r.index
    ensures r.chunks.Valid() && Honest(r)
    ensures st == Ok ==> MatchesTree(r.chunks.entries, t', home)
    ensures st == Ok ==> RowsTell(ByKey(r.chunks.entries), ByKey(old(r.chunks.entries)), t', home)
    ensures st == Ok && IsOpen(r) && (rebuilt || old(HasRows(r))) ==> HasRows(r)
    ensures st == Ok && IsOpen(r) && !rebuilt && old(InStep(r)) ==> InStep(r)
    ensures st == Ok && IsOpen(r) && rebuilt ==> (InStep(r) <==> !r.tainted)
    ensures st != Ok && !rebuilt ==> unchanged(r.chunks) && unchanged(r) && (r.index != null ==> unchanged(r.index))
    ensures !rebuilt ==> r.tainted == old(r.tainted) && r.ready == old(r.ready)
    ensures rebuilt ==> (r.ready <==> st == Ok)
  {
    var batch;
    rebuilt := false;
    st, batch := AddFiles(t', order, []);
    if st != Ok {
      return;
    }
    assert batch == Files(t', order);
    WalkBatchIsTree(t', home, order);
    FilesHome(t', home, order);
    SyncMatchesTree(r.chunks.entries, r.chunks.nextId, batch, t', home);
    WalkRowsTell(r.chunks.entries, r.chunks.nextId, t', home, order);
    st, rebuilt := SyncTable(r, batch);
  }

  /**
   `cberg_repo_bootstrap` where there is no saved table: a walk, and on success the repository is ready. An index
   file that outlived its table is filled like any other, so its old ids stay unless a rebuild sweeps them out.
   */
  method Bootstrap(r: Repo, t: Tree, order: seq<string>, ghost home: string -> string) returns (st: Status, ghost rebuilt: bool)
    requires r.chunks.Valid() && r.chunks.entries == [] && !r.ready
    requires TreeHome(t, home) && forall p :: p in t ==> p in order
    modifies r`index, r`ready, r`tainted, r.eng, r.files, r.chunks, r.index
    ensures r.chunks.Valid() && Honest(r) && (r.ready <==> st == Ok)
    ensures st == Ok ==> MatchesTree(r.chunks.entries, t, home)
    ensures st == Ok ==> RowsTell(ByKey(r.chunks.entries), map[], t, home)
    ensures st == Ok && IsOpen(r) ==> HasRows(r)
    ensures !rebuilt ==> (r.tainted <==> old(r.index != null && r.index.vectors != map[]))
  {
    r.tainted := r.index != null && r.index.vectors != map[];
    st, rebuilt := WalkAndSync(r, t, order, home);
    if st == Ok {
      r.ready := true;
    }
  }

  /**
   `apply_path_changes`: when it succeeds, the table is what the new tree says, keys that survive keep
   their ids, and an open vector index still agrees; after a rebuild it agrees whatever was there before,
   unless the rebuild was tainted.
   */
  method ApplyPathChanges(r: Repo, t': Tree, rechunk: seq<string>, deleted: seq<string>, ghost t: Tree, ghost home: string -> string)
    returns (st: Status, ghost rebuilt: bool)
    requires r.chunks.Valid() && Honest(r)
    requires MatchesTree(r.chunks.entries, t, home) && TreeHome(t', home) && Covers(t, t', rechunk, deleted)
    modifies r`index, r`ready, r`tainted, r.eng, r.files, r.chunks, r.index
    ensures r.chunks.Valid() && Honest(r)
    ensures st == Ok ==> MatchesTree(r.chunks.entries, t', home)
    ensures st == Ok ==> RowsTell(ByKey(r.chunks.entries), ByKey(old(r.chunks.entries)), t', home)
    ensures st == Ok ==> forall k :: k in ByKey(r.chunks.entries) && k in ByKey(old(r.chunks.entries)) ==>
                           ByKey(r.chunks.entries)[k].id == ByKey(old(r.chunks.entries))[k].id
    ensures st == Ok && IsOpen(r) && (rebuilt || old(HasRows(r))) ==> HasRows(r)
    ensures st == Ok && IsOpen(r) && !rebuilt && old(InStep(r)) ==> InStep(r)
    ensures st == Ok && IsOpen(r) && rebuilt ==> (InStep(r) <==> !r.tainted)
    ensures st != Ok && !rebuilt ==> unchanged(r.chunks) && unchanged(r) && (r.index != null ==> unchanged(r.index))
    ensures !rebuilt ==> r.tainted == old(r.tainted) && r.ready == old(r.ready)
    ensures rebuilt ==> (r.ready <==> st == Ok)
  {
    var batch;
    rebuilt := false;
    st, batch := AddTableExcept(r.chunks.entries, deleted + rechunk);
    if st != Ok {
      return;
    }
    st, batch := AddFiles(t', rechunk, batch);
    if st != Ok {
      return;
    }
    IncrementalRefinesFull(r.chunks.entries, r.chunks.nextId, r.chunks.entries, r.chunks.nextId, t, t', home, rechunk, deleted, Everywhere(t'));
    PathRowsTell(r.chunks.entries, r.chunks.nextId, t, t', home, rechunk, deleted);
    st, rebuilt := SyncTable(r, batch);
  }
  /** What the saved manifest says changed since it was written, if there is one. */
  datatype Since = Since(rechunk: seq<string>, deleted: seq<string>)

  /**
   `bootstrap_warm` and what follows it, on a table that was restored: the changed paths, or with no manifest the
   whole tree. The index file is saved on its own, so it may be behind or ahead of the table; if it had every row
   it still has, and a rebuild gives it every row in any case.
   */
  method BootstrapWarm(r: Repo, t': Tree, since: Option<Since>, order: seq<string>, ghost t: Tree, ghost home: string -> string)
    returns (st: Status, ghost rebuilt: bool)
    requires r.chunks.Valid() && !r.ready && MatchesTree(r.chunks.entries, t, home)
    requires TreeHome(t', home) && forall p :: p in t' ==> p in order
    requires since.Some? ==> Covers(t, t', since.value.rechunk, since.value.deleted)
    modifies r`index, r`ready, r`tainted, r.eng, r.files, r.chunks, r.index
    ensures r.chunks.Valid() && (r.ready <==> st == Ok)
    ensures st == Ok ==> MatchesTree(r.chunks.entries, t', home)
    ensures st == Ok ==> RowsTell(ByKey(r.chunks.entries), ByKey(old(r.chunks.entries)), t', home)
    ensures rebuilt || old(HasRows(r)) ==> Honest(r)
    ensures st == Ok && IsOpen(r) && !rebuilt && old(InStep(r)) ==> InStep(r)
    ensures !rebuilt ==> (r.tainted <==> !old(InStep(r)))
  {
    r.tainted := !InStep(r);
    if since.None? {
      st, rebuilt := WalkAndSync(r, t', order, home);
    } else {
      st, rebuilt := ApplyPathChanges(r, t', since.value.rechunk, since.value.deleted, t, home);
    }
    if st == Ok {
      r.ready := true;
    }
  }
}
