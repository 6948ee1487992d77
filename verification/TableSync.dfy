/**
 The chunk table's diff as a function: what `cberg_chunk_table_sync` makes of the live
 rows and a batch of incoming chunks. ChunkTable.dfy proves the code computes it.
 */
module TableSync {
  import opened Common
  import opened Sorting

  type Hash = seq<nat>

  datatype Span = Span(startByte: nat, endByte: nat, startLine: nat, endLine: nat)

  datatype Chunk = Chunk(key: string, path: string, symbol: Option<string>, kind: nat, span: Span, hash: Hash)

  datatype Stored = Stored(id: nat, chunk: Chunk)

  /** A row of the batch; None is a row whose key pointer is NULL. */
  type Incoming = Option<Chunk>

  type Rows = seq<Stored>

  /** The table being built beside the live one. */
  datatype Next = Next(entries: Rows, nextId: nat, added: Rows, modified: Rows, seen: set<nat>)

  datatype Changes = Changes(added: Rows, modified: Rows, deleted: Rows)

  function KeyOf(rows: Rows, i: nat): string
    requires i < |rows|
  {
    rows[i].chunk.key
  }

  function Keys(rows: Rows): (ks: seq<string>)
    ensures |ks| == |rows| && forall i :: 0 <= i < |rows| ==> ks[i] == KeyOf(rows, i)
  {
    seq(|rows|, i requires 0 <= i < |rows| => rows[i].chunk.key)
  }

  ghost predicate DistinctKeys(rows: Rows) {
    NoDuplicates(Keys(rows))
  }

  /** The row each key names. */
  ghost function ByKey(rows: Rows): (m: map<string, Stored>)
    ensures forall k :: k in m ==> m[k].chunk.key == k
  {
    if rows == [] then map[] else
      ByKey(rows[..|rows| - 1])[rows[|rows| - 1].chunk.key := rows[|rows| - 1]]
  }

  /** Where a key is, as the key index answers it. */
  function Find(rows: Rows, key: string): (r: Option<nat>)
    ensures r.Some? ==> r.value < |rows| && KeyOf(rows, r.value) == key
    ensures r.Some? ==> key in ByKey(rows) && ByKey(rows)[key] == rows[r.value]
    ensures r.None? ==> key !in ByKey(rows) && key !in Keys(rows)
  {
    if rows == [] then None
    else if rows[|rows| - 1].chunk.key == key then Some(|rows| - 1)
    else
      assert Keys(rows) == Keys(rows[..|rows| - 1]) + [KeyOf(rows, |rows| - 1)];
      Find(rows[..|rows| - 1], key)
  }

  /** `refresh_change_snap`: where the change list already holds the row of this id. */
  function FindId(rows: Rows, id: nat): (r: Option<nat>)
    ensures r.Some? ==> r.value < |rows| && rows[r.value].id == id
    ensures r.None? ==> forall i :: 0 <= i < |rows| ==> rows[i].id != id
  {
    if rows == [] then None
    else if rows[0].id == id then Some(0)
    else
      var r := FindId(rows[1..], id);
      if r.None? then None else Some(r.value + 1)
  }

  /** `sync_apply_incoming`: one incoming chunk moves into the next table. */
  function Apply(n: Next, live: Rows, inc: Chunk): Next {
    var at, was := Find(n.entries, inc.key), Find(live, inc.key);
    var seen := if was.Some? then n.seen + {was.value} else n.seen;
    if at.Some? then
      // A repeated key: the later chunk wins, under the id the earlier one got.
      var row := Stored(n.entries[at.value].id, inc);
      var n' := n.(entries := n.entries[at.value := row], seen := seen);
      if n.entries[at.value].chunk.hash == inc.hash then n'
      else
        var a, m := FindId(n.added, row.id), FindId(n.modified, row.id);
        if a.Some? then n'.(added := n.added[a.value := row])
        else if m.Some? then n'.(modified := n.modified[m.value := row])
        else n'.(modified := n.modified + [row])
    else if was.None? then
      var row := Stored(n.nextId, inc);
      n.(entries := n.entries + [row], nextId := n.nextId + 1, added := n.added + [row])
    else
      var existing := live[was.value];
      var changed := existing.chunk.hash != inc.hash;
      var row := Stored(existing.id, if changed then inc else existing.chunk);
      n.(entries := n.entries + [row], seen := seen, modified := if changed then n.modified + [row] else n.modified)
  }

  function ApplyAll(live: Rows, nextId: nat, batch: seq<Chunk>): Next {
    if batch == [] then Next([], nextId, [], [], {})
    else Apply(ApplyAll(live, nextId, batch[..|batch| - 1]), live, batch[|batch| - 1])
  }

  /** The live rows no incoming chunk named, in table order. */
  function Unseen(live: Rows, seen: set<nat>): Rows {
    if live == [] then []
    else if |live| - 1 in seen then Unseen(live[..|live| - 1], seen)
    else Unseen(live[..|live| - 1], seen) + [live[|live| - 1]]
  }

  predicate ById(a: Stored, b: Stored) {
    a.id <= b.id
  }

  /** The table and the change lists a successful sync leaves. */
  datatype Synced = Synced(entries: Rows, nextId: nat, changes: Changes)

  ghost function Sync(live: Rows, nextId: nat, batch: seq<Chunk>): Synced {
    var n := ApplyAll(live, nextId, batch);
    Synced(n.entries, n.nextId, Changes(n.added, n.modified, Sort(Unseen(live, n.seen), ById)))
  }

  /** `table_matches`: the batch is the live rows, in order, with the same hashes. */
  predicate Matches(live: Rows, batch: seq<Incoming>) {
    |batch| == |live| &&
    forall i :: 0 <= i < |batch| ==>
      batch[i].Some? && batch[i].value.key == KeyOf(live, i) && batch[i].value.hash == live[i].chunk.hash
  }

  /** The batch as a map: the last chunk of each key decides its hash. */
  function LastWins(batch: seq<Chunk>): map<string, Hash> {
    if batch == [] then map[]
    else LastWins(batch[..|batch| - 1])[batch[|batch| - 1].key := batch[|batch| - 1].hash]
  }

  /** What the table stands for: each key with its content hash. */
  ghost function KeyHash(rows: Rows): map<string, Hash> {
    map k | k in ByKey(rows) :: ByKey(rows)[k].chunk.hash
  }

  /** A table of the repository: distinct keys, distinct ids, every id handed out before `nextId` and never 0. */
  ghost predicate WellFormed(live: Rows, nextId: nat) {
    && DistinctKeys(live)
    && (forall k :: k in ByKey(live) ==> 0 < ByKey(live)[k].id < nextId)
    && IdsDistinct(ByKey(live))
    && 0 < nextId
  }

  type Keyed = map<string, Stored>

  ghost predicate IdsDistinct(m: Keyed) {
    forall k, k' {:trigger IdsDiffer(m, k, k')} :: IdsDiffer(m, k, k')
  }

  ghost predicate IdsDiffer(m: Keyed, k: string, k': string) {
    k in m && k' in m && k != k' ==> m[k].id != m[k'].id
  }

  /** The live keys some chunk of the batch gave another hash. */
  ghost function Touched(l: Keyed, batch: seq<Chunk>): set<string> {
    if batch == [] then {} else
      var inc := batch[|batch| - 1];
      Touched(l, batch[..|batch| - 1]) + (if inc.key in l && l[inc.key].chunk.hash != inc.hash then {inc.key} else {})
  }

  // ---- Rows as maps ----

  lemma AppendRow(rows: Rows, row: Stored)
    ensures ByKey(rows + [row]) == ByKey(rows)[row.chunk.key := row]
    ensures DistinctKeys(rows) && row.chunk.key !in ByKey(rows) ==> DistinctKeys(rows + [row])
  {
    assert (rows + [row])[..|rows|] == rows;
    assert Keys(rows + [row]) == Keys(rows) + [row.chunk.key];
    assert Find(rows, row.chunk.key).None? || row.chunk.key in ByKey(rows);
  }

  lemma {:induction false} ReplaceRow(rows: Rows, i: nat, row: Stored)
    requires DistinctKeys(rows) && i < |rows| && KeyOf(rows, i) == row.chunk.key
    ensures ByKey(rows[i := row]) == ByKey(rows)[row.chunk.key := row]
    ensures DistinctKeys(rows[i := row])
  {
    var n := |rows| - 1;
    assert Keys(rows[i := row]) == Keys(rows);
    if i == n {
      assert rows[i := row][..n] == rows[..n];
    } else {
      assert rows[i := row][..n] == rows[..n][i := row];
      assert Keys(rows)[i] != Keys(rows)[n];
      assert Keys(rows[..n]) == Keys(rows)[..n];
      ReplaceRow(rows[..n], i, row);
    }
  }

  /** With distinct keys, the row at an index is the row its key names. */
  lemma {:induction false} RowAt(rows: Rows, i: nat)
    requires DistinctKeys(rows) && i < |rows|
    ensures Find(rows, KeyOf(rows, i)) == Some(i)
    ensures KeyOf(rows, i) in ByKey(rows) && ByKey(rows)[KeyOf(rows, i)] == rows[i]
  {
    var n := |rows| - 1;
    if i < n {
      assert Keys(rows)[i] != Keys(rows)[n];
      assert Keys(rows[..n]) == Keys(rows)[..n];
      RowAt(rows[..n], i);
    }
  }

  // ---- The state of a sync after a prefix of the batch ----

  ghost predicate Same(a: Stored, b: Stored) {
    a.id == b.id && a.chunk.key == b.chunk.key && a.chunk.hash == b.chunk.hash
  }

  /**
   What one key looks like part way through a sync, with `l` the live rows, `r` the new ones, `a` and
   `m` the change lists, `w` and `t` the batch so far, and `lo..hi` the ids handed out since the sync began.
   */
  ghost predicate KeyOk(l: Keyed, r: Keyed, a: Keyed, m: Keyed, w: map<string, Hash>, t: set<string>, lo: nat, hi: nat, k: string) {
    && (k in r <==> k in w)
    && (k in r ==> r[k].chunk.hash == w[k] && r[k].chunk.key == k)
    && (k in r && k in l ==> r[k].id == l[k].id)
    && (k in r && k !in l ==> lo <= r[k].id < hi)
    && (k in a <==> k in r && k !in l)
    && (k in a ==> Same(a[k], r[k]))
    && (k in m <==> k in t)
    && (k in m ==> k in r && k in l && Same(m[k], r[k]))
    && (k in r && k in l && k !in m ==> r[k].chunk.hash == l[k].chunk.hash)
  }

  ghost predicate MapsOk(l: Keyed, r: Keyed, a: Keyed, m: Keyed, w: map<string, Hash>, t: set<string>, lo: nat, hi: nat) {
    && lo <= hi && IdsDistinct(r)
    && forall k {:trigger KeyOk(l, r, a, m, w, t, lo, hi, k)} :: KeyOk(l, r, a, m, w, t, lo, hi, k)
  }

  ghost predicate SyncState(live: Rows, nextId: nat, batch: seq<Chunk>, n: Next) {
    && DistinctKeys(n.entries) && DistinctKeys(n.added) && DistinctKeys(n.modified)
    && MapsOk(ByKey(live), ByKey(n.entries), ByKey(n.added), ByKey(n.modified), LastWins(batch), Touched(ByKey(live), batch), nextId, n.nextId)
    && (forall i {:trigger i in n.seen} :: i in n.seen <==> 0 <= i < |live| && KeyOf(live, i) in LastWins(batch))
  }

  /** A key's row takes a new chunk under the same id; a changed hash reaches whichever change list the key belongs to. */
  lemma MapsRepeat(l: Keyed, r: Keyed, a: Keyed, m: Keyed, w: map<string, Hash>, t: set<string>, lo: nat, hi: nat, key: string, row: Stored)
    requires MapsOk(l, r, a, m, w, t, lo, hi) && key in r && row.id == r[key].id && row.chunk.key == key
    ensures var h := row.chunk.hash;
            MapsOk(l, r[key := row],
                   if h != r[key].chunk.hash && key in a then a[key := row] else a,
                   if h != r[key].chunk.hash && key !in a then m[key := row] else m,
                   w[key := h], t + (if key in l && l[key].chunk.hash != h then {key} else {}), lo, hi)
  {
    var h := row.chunk.hash;
    var r', w' := r[key := row], w[key := h];
    var t' := t + (if key in l && l[key].chunk.hash != h then {key} else {});
    assert KeyOk(l, r, a, m, w, t, lo, hi, key);
    var a' := if h != r[key].chunk.hash && key in a then a[key := row] else a;
    var m' := if h != r[key].chunk.hash && key !in a then m[key := row] else m;
    forall k {:trigger KeyOk(l, r', a', m', w', t', lo, hi, k)} | true
      ensures KeyOk(l, r', a', m', w', t', lo, hi, k)
    {
      assert KeyOk(l, r, a, m, w, t, lo, hi, k);
    }
    forall k, k' {:trigger IdsDiffer(r', k, k')} | true
      ensures IdsDiffer(r', k, k')
    {
      assert IdsDiffer(r, k, k');
    }
  }

  /** A key's first row: a fresh id and an added row, or the live row's id and a modified row when the hash moved. */
  lemma MapsFirst(l: Keyed, r: Keyed, a: Keyed, m: Keyed, w: map<string, Hash>, t: set<string>, lo: nat, hi: nat, key: string, row: Stored)
    requires MapsOk(l, r, a, m, w, t, lo, hi) && key !in r && row.chunk.key == key
    requires row.id == if key in l then l[key].id else hi
    requires IdsDistinct(l) && forall k :: k in l ==> l[k].id < lo
    ensures var h := row.chunk.hash;
            MapsOk(l, r[key := row],
                   if key in l then a else a[key := row],
                   if key in l && l[key].chunk.hash != h then m[key := row] else m,
                   w[key := h], t + (if key in l && l[key].chunk.hash != h then {key} else {}), lo, if key in l then hi else hi + 1)
  {
    var h := row.chunk.hash;
    var t' := t + (if key in l && l[key].chunk.hash != h then {key} else {});
    var r', w', hi' := r[key := row], w[key := h], if key in l then hi else hi + 1;
    var a' := if key in l then a else a[key := row];
    var m' := if key in l && l[key].chunk.hash != h then m[key := row] else m;
    assert KeyOk(l, r, a, m, w, t, lo, hi, key);
    forall k {:trigger KeyOk(l, r', a', m', w', t', lo, hi', k)} | true
      ensures KeyOk(l, r', a', m', w', t', lo, hi', k)
    {
      assert KeyOk(l, r, a, m, w, t, lo, hi, k);
    }
    forall k, k' {:trigger IdsDiffer(r', k, k')} | true
      ensures IdsDiffer(r', k, k')
    {
      assert IdsDiffer(r, k, k') && IdsDiffer(l, k, k');
      assert KeyOk(l, r, a, m, w, t, lo, hi, k) && KeyOk(l, r, a, m, w, t, lo, hi, k');
    }
  }

  /** A sync's state, from its maps. */
  lemma StateFrom(live: Rows, nextId: nat, batch: seq<Chunk>, n: Next, l: Keyed, r: Keyed, a: Keyed, m: Keyed, w: map<string, Hash>, t: set<string>)
    requires l == ByKey(live)
    requires r == ByKey(n.entries) && DistinctKeys(n.entries)
    requires a == ByKey(n.added) && DistinctKeys(n.added)
    requires m == ByKey(n.modified) && DistinctKeys(n.modified)
    requires w == LastWins(batch)
    requires t == Touched(l, batch)
    requires MapsOk(l, r, a, m, w, t, nextId, n.nextId)
    requires forall i {:trigger i in n.seen} :: i in n.seen <==> 0 <= i < |live| && KeyOf(live, i) in LastWins(batch)
    ensures SyncState(live, nextId, batch, n)
  {}

  lemma BatchNext(l: Keyed, batch: seq<Chunk>, inc: Chunk)
    ensures LastWins(batch + [inc]) == LastWins(batch)[inc.key := inc.hash]
    ensures Touched(l, batch + [inc]) == Touched(l, batch) + (if inc.key in l && l[inc.key].chunk.hash != inc.hash then {inc.key} else {})
  {
    assert (batch + [inc])[..|batch|] == batch;
  }

  lemma ApplyRepeated(live: Rows, nextId: nat, batch: seq<Chunk>, n: Next, inc: Chunk)
    requires WellFormed(live, nextId) && SyncState(live, nextId, batch, n) && inc.key in ByKey(n.entries)
    ensures SyncState(live, nextId, batch + [inc], Apply(n, live, inc))
  {
    var n', key := Apply(n, live, inc), inc.key;
    var l, r, a, m, w, t := ByKey(live), ByKey(n.entries), ByKey(n.added), ByKey(n.modified), LastWins(batch), Touched(ByKey(live), batch);
    assert KeyOk(l, r, a, m, w, t, nextId, n.nextId, key);
    var at := Find(n.entries, key).value;
    var row := Stored(n.entries[at].id, inc);
    ReplaceRow(n.entries, at, row);
    MapsRepeat(l, r, a, m, w, t, nextId, n.nextId, key, row);
    ChangeLists(live, nextId, batch, n, row);
    SeenStep(live, batch, n, inc);
    BatchNext(l, batch, inc);
    StateFrom(live, nextId, batch + [inc], n', l, ByKey(n'.entries), ByKey(n'.added), ByKey(n'.modified), LastWins(batch + [inc]), Touched(l, batch + [inc]));
  }

  /** What a key's first chunk adds: its row, and that row to one change list or none. */
  lemma FirstRow(live: Rows, n: Next, inc: Chunk) returns (row: Stored)
    requires inc.key !in ByKey(n.entries)
    ensures row.chunk.key == inc.key && row.id == if inc.key in ByKey(live) then ByKey(live)[inc.key].id else n.nextId
    ensures var n', l := Apply(n, live, inc), ByKey(live);
            && n'.entries == n.entries + [row] && n'.nextId == (if inc.key in l then n.nextId else n.nextId + 1)
            && n'.added == (if inc.key in l then n.added else n.added + [row])
            && n'.modified == (if inc.key in l && l[inc.key].chunk.hash != inc.hash then n.modified + [row] else n.modified)
            && row.chunk.hash == inc.hash
            && row.chunk == (if inc.key in l && l[inc.key].chunk.hash == inc.hash then l[inc.key].chunk else inc)
  {
    row := Apply(n, live, inc).entries[|n.entries|];
  }

  lemma ApplyFirst(live: Rows, nextId: nat, batch: seq<Chunk>, n: Next, inc: Chunk)
    requires WellFormed(live, nextId) && SyncState(live, nextId, batch, n) && inc.key !in ByKey(n.entries)
    ensures SyncState(live, nextId, batch + [inc], Apply(n, live, inc))
  {
    var n', key := Apply(n, live, inc), inc.key;
    var l, r, a, m, w, t := ByKey(live), ByKey(n.entries), ByKey(n.added), ByKey(n.modified), LastWins(batch), Touched(ByKey(live), batch);
    assert KeyOk(l, r, a, m, w, t, nextId, n.nextId, key);
    var row := FirstRow(live, n, inc);
    AppendRow(n.entries, row);
    AppendRow(n.added, row);
    AppendRow(n.modified, row);
    MapsFirst(l, r, a, m, w, t, nextId, n.nextId, key, row);
    SeenStep(live, batch, n, inc);
    BatchNext(l, batch, inc);
    StateFrom(live, nextId, batch + [inc], n', l, ByKey(n'.entries), ByKey(n'.added), ByKey(n'.modified), LastWins(batch + [inc]), Touched(l, batch + [inc]));
  }

  /** One incoming chunk takes the state after `batch` to the state after `batch + [inc]`. */
  lemma ApplyKeepsState(live: Rows, nextId: nat, batch: seq<Chunk>, n: Next, inc: Chunk)
    requires WellFormed(live, nextId) && SyncState(live, nextId, batch, n)
    ensures SyncState(live, nextId, batch + [inc], Apply(n, live, inc))
  {
    if inc.key in ByKey(n.entries) {
      ApplyRepeated(live, nextId, batch, n, inc);
    } else {
      ApplyFirst(live, nextId, batch, n, inc);
    }
  }

  lemma SeenStep(live: Rows, batch: seq<Chunk>, n: Next, inc: Chunk)
    requires DistinctKeys(live)
    requires forall i {:trigger i in n.seen} :: i in n.seen <==> 0 <= i < |live| && KeyOf(live, i) in LastWins(batch)
    ensures forall i {:trigger i in Apply(n, live, inc).seen} ::
              i in Apply(n, live, inc).seen <==> 0 <= i < |live| && KeyOf(live, i) in LastWins(batch + [inc])
  {
    assert (batch + [inc])[..|batch|] == batch;
    forall i | 0 <= i < |live| && KeyOf(live, i) == inc.key
      ensures Find(live, inc.key) == Some(i)
    {
      RowAt(live, i);
    }
  }

  /** Looking a change row up by id finds exactly the row of that id's key, so the lists change as maps do. */
  lemma ChangeLists(live: Rows, nextId: nat, batch: seq<Chunk>, n: Next, row: Stored)
    requires SyncState(live, nextId, batch, n) && row.chunk.key in ByKey(n.entries) && row.id == ByKey(n.entries)[row.chunk.key].id
    ensures var (a, m, key) := (FindId(n.added, row.id), FindId(n.modified, row.id), row.chunk.key);
            && (a.Some? <==> key in ByKey(n.added)) && (m.Some? <==> key in ByKey(n.modified))
            && (a.Some? ==> ByKey(n.added[a.value := row]) == ByKey(n.added)[key := row] && DistinctKeys(n.added[a.value := row]))
            && (m.Some? ==> ByKey(n.modified[m.value := row]) == ByKey(n.modified)[key := row] && DistinctKeys(n.modified[m.value := row]))
            && (m.None? ==> ByKey(n.modified + [row]) == ByKey(n.modified)[key := row] && DistinctKeys(n.modified + [row]))
  {
    var l, r, w, t := ByKey(live), ByKey(n.entries), LastWins(batch), Touched(ByKey(live), batch);
    forall k | k in ByKey(n.added) || k in ByKey(n.modified)
      ensures KeyOk(l, r, ByKey(n.added), ByKey(n.modified), w, t, nextId, n.nextId, k)
    {}
    RowOfId(n.added, r, row);
    RowOfId(n.modified, r, row);
    AppendRow(n.modified, row);
  }

  lemma RowOfId(list: Rows, r: Keyed, row: Stored)
    requires DistinctKeys(list) && IdsDistinct(r) && row.chunk.key in r && r[row.chunk.key].id == row.id
    requires forall k :: k in ByKey(list) ==> k in r && Same(ByKey(list)[k], r[k])
    ensures var at := FindId(list, row.id);
            && (at.Some? <==> row.chunk.key in ByKey(list))
            && (at.Some? ==> ByKey(list[at.value := row]) == ByKey(list)[row.chunk.key := row] && DistinctKeys(list[at.value := row]))
  {
    var at, there := FindId(list, row.id), Find(list, row.chunk.key);
    assert there.Some? ==> list[there.value].id == row.id;
    if at.Some? {
      RowAt(list, at.value);
      assert IdsDiffer(r, KeyOf(list, at.value), row.chunk.key);
      ReplaceRow(list, at.value, row);
    }
  }

  lemma {:induction false} ApplyAllState(live: Rows, nextId: nat, batch: seq<Chunk>)
    requires WellFormed(live, nextId)
    ensures SyncState(live, nextId, batch, ApplyAll(live, nextId, batch))
  {
    if batch == [] {
      assert forall k :: KeyOk(ByKey(live), map[], map[], map[], map[], {}, nextId, nextId, k);
      assert forall k, k' :: IdsDiffer(map[], k, k');
    } else {
      var init := batch[..|batch| - 1];
      ApplyAllState(live, nextId, init);
      ApplyKeepsState(live, nextId, init, ApplyAll(live, nextId, init), batch[|batch| - 1]);
      assert init + [batch[|batch| - 1]] == batch;
    }
  }
}
