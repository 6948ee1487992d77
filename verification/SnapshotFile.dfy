/** `cberg_chunk_table_save` and `cberg_chunk_table_load`, with every write, read and allocation free to fail. */
module SnapshotFiles {
  import opened Common
  import opened TableSync
  import opened TableTheorems
  import opened ChunkTables
  import opened Snapshots
  import opened Fingerprints

  /** The snapshot path: absent, or a file. */
  class Disk {
    var file: Option<Bytes>

    constructor (file: Option<Bytes>)
      ensures this.file == file
    {
      this.file := file;
    }
  }

  /** `fwrite` to the temporary file. */
  method Append(temp: Bytes, b: Bytes) returns (ok: bool, temp': Bytes)
    ensures temp' == if ok then temp + b else temp
  {
    ok := *;
    temp' := if ok then temp + b else temp;
  }

  predicate FitsPrefix(c: Chunk) {
    |c.key| < STR_NULL && |c.path| < STR_NULL && (c.symbol.Some? ==> |c.symbol.value| < STR_NULL)
  }

  lemma {:induction false} PutManyMore<T>(put: T -> Bytes, rows: seq<T>, row: T)
    ensures PutMany(put, rows + [row]) == PutMany(put, rows) + put(row)
  {
    if rows == [] {
      assert rows + [row] == [row] && [row][1..] == [];
      assert PutMany(put, [row]) == put(row) + PutMany(put, []);
    } else {
      assert (rows + [row])[1..] == rows[1..] + [row];
      PutManyMore(put, rows[1..], row);
    }
  }

  lemma WrittenNext(put: Stored -> Bytes, rows: Rows, i: nat, header: Bytes)
    requires i < |rows|
    ensures (header + PutMany(put, rows[..i])) + put(rows[i]) == header + PutMany(put, rows[..i + 1])
  {
    PutManyMore(put, rows[..i], rows[i]);
    assert rows[..i + 1] == rows[..i] + [rows[i]];
    Regroup(header, PutMany(put, rows[..i]), put(rows[i]));
  }

  /** The row loop of a save: any write may fail, and a string too long for its length field stops it. */
  method WriteRows(put: Stored -> Bytes, rows: Rows, header: Bytes) returns (ok: bool, temp: Bytes)
    ensures ok ==> temp == header + PutMany(put, rows)
    ensures ok ==> forall i :: 0 <= i < |rows| ==> FitsPrefix(rows[i].chunk)
  {
    temp := header;
    for i := 0 to |rows|
      invariant temp == header + PutMany(put, rows[..i])
      invariant forall j :: 0 <= j < i ==> FitsPrefix(rows[j].chunk)
    {
      if !FitsPrefix(rows[i].chunk) {
        return false, temp;
      }
      WrittenNext(put, rows, i, header);
      ok, temp := Append(temp, put(rows[i]));
      if !ok {
        return;
      }
    }
    assert rows[..|rows|] == rows;
    ok := true;
  }

  /**
   `cberg_chunk_table_save`: the rows go to a temporary file that replaces the snapshot only when it is
   complete, so a failed save leaves the previous snapshot as it was.
   */
  method Save(table: ChunkTable, disk: Disk) returns (st: Status)
    modifies disk
    ensures st == Ok || st == Io
    ensures st == Ok ==> disk.file == Some(Encode(table.entries, table.nextId))
    ensures st == Ok ==> forall i :: 0 <= i < |table.entries| ==> FitsPrefix(table.entries[i].chunk)
    ensures st != Ok ==> unchanged(disk)
  {
    var rows := table.entries;
    var ok, temp := Append([], Header(table.nextId, |rows|));
    if !ok {
      return Io;
    }
    assert temp == Header(table.nextId, |rows|);
    ok, temp := WriteRows(PutRow, rows, temp);
    var renamed: bool := *;
    if !ok || !renamed {
      return Io;
    }
    HeaderThenRows(rows, table.nextId);
    disk.file := Some(temp);
    return Ok;
  }

  /** The row as the table keeps it: each string copied up to its first zero. */
  function Copied(r: Stored): Stored {
    r.(chunk := r.chunk.(key := CutAtZero(r.chunk.key), path := CutAtZero(r.chunk.path),
                         symbol := if r.chunk.symbol.None? then None else Some(CutAtZero(r.chunk.symbol.value))))
  }

  function CopiedRows(rows: Rows): (c: Rows)
    ensures |c| == |rows| && forall i :: 0 <= i < |rows| ==> c[i] == Copied(rows[i])
  {
    seq(|rows|, i requires 0 <= i < |rows| => Copied(rows[i]))
  }

  lemma {:induction false} CopyIsWhole(rows: Rows)
    requires forall i :: 0 <= i < |rows| ==> Storable(rows[i])
    ensures CopiedRows(rows) == rows
  {
    forall i | 0 <= i < |rows|
      ensures Copied(rows[i]) == rows[i]
    {
      var c := rows[i].chunk;
      CStringIsWhole(c.key);
      CStringIsWhole(c.path);
      if c.symbol.Some? {
        CStringIsWhole(c.symbol.value);
      }
    }
  }

  /** The row loop of the loader, over any row reader: read a row, copy it, append it. */
  method LoadRows(table: ChunkTable, get: Bytes -> Read<Stored>, s: Bytes, n: nat) returns (st: Status, ghost starved: bool)
    requires table.Indexed() && table.entries == []
    modifies table`entries, table`keyIndex, table`idIndex
    ensures st == Ok || st == NotFound || st == OutOfMemory
    ensures st == Ok ==> GetMany(get, s, n).Got? && table.Indexed() && table.entries == CopiedRows(GetMany(get, s, n).value)
    ensures !starved && st == NotFound ==> GetMany(get, s, n).Short?
    ensures !starved && st == OutOfMemory ==> ZeroIdRead(get, s, n)
  {
    var rest := s;
    ghost var rows: Rows := [];
    starved := false;
    AfterNone(GetMany(get, s, n));
    for i := 0 to n
      invariant |rows| == i && table.Indexed() && table.entries == CopiedRows(rows)
      invariant GetMany(get, s, n) == After(rows, GetMany(get, rest, n - i))
      invariant ZeroIdRead(get, rest, n - i) ==> ZeroIdRead(get, s, n)
      invariant !starved
    {
      var row := get(rest);
      var room := TryAlloc(3);
      if row.Short? || !room {
        starved := !room;
        return NotFound, starved;
      }
      st := table.Append(Copied(row.value));
      if st != Ok {
        starved := row.value.id != 0;
        return;
      }
      assert CopiedRows(rows + [row.value]) == CopiedRows(rows) + [Copied(row.value)];
      AfterMore(rows, row.value, GetMany(get, row.rest, n - i - 1));
      rows, rest := rows + [row.value], row.rest;
    }
    return Ok, false;
  }

  ghost function After(rows: Rows, r: Read<Rows>): Read<Rows> {
    if r.Short? then Short else Got(rows + r.value, r.rest)
  }

  lemma AfterNone(r: Read<Rows>)
    ensures After([], r) == r
  {
    if r.Got? {
      assert [] + r.value == r.value;
    }
  }

  lemma AfterMore(rows: Rows, row: Stored, r: Read<Rows>)
    ensures After(rows, After([row], r)) == After(rows + [row], r)
  {
    if r.Got? {
      assert rows + ([row] + r.value) == rows + [row] + r.value;
    }
  }

  /** The loader meets a row with id 0, which the id index refuses, before the file ends. */
  ghost predicate ZeroIdRead(get: Bytes -> Read<Stored>, s: Bytes, n: nat)
    decreases n
  {
    n > 0 && get(s).Got? && (get(s).value.id == 0 || ZeroIdRead(get, get(s).rest, n - 1))
  }

  lemma {:induction false} NoZeroIdRead(get: Bytes -> Read<Stored>, s: Bytes, n: nat)
    requires GetMany(get, s, n).Got? && forall i :: 0 <= i < n ==> GetMany(get, s, n).value[i].id != 0
    ensures !ZeroIdRead(get, s, n)
    decreases n
  {
    if n > 0 {
      var all, more := GetMany(get, s, n).value, GetMany(get, get(s).rest, n - 1).value;
      assert all == [get(s).value] + more;
      assert all[0].id != 0;
      assert forall i :: 0 <= i < |more| ==> more[i] == all[i + 1];
      NoZeroIdRead(get, get(s).rest, n - 1);
    }
  }

  /** The fixed-width front of a snapshot and the bytes of its rows. */
  datatype Front = Front(nextId: nat, count: nat, body: Bytes)

  /** None when the file does not open as a snapshot. */
  function Opened(s: Bytes): Option<Front> {
    var magic := GetBytes(s, 4);
    if magic.Short? || magic.value != MAGIC then None else
    var version := GetInt(magic.rest, 4);
    if version.Short? || version.value != VERSION then None else
    var nextId := GetInt(version.rest, 8);
    if nextId.Short? then None else
    var count := GetInt(nextId.rest, 8);
    if count.Short? then None else Some(Front(nextId.value, count.value, count.rest))
  }

  lemma DecodeOpened(s: Bytes)
    ensures Decode(s) == match Opened(s)
                         case None => None
                         case Some(f) =>
                           var rows := GetRows(f.body, f.count);
                           if rows.Short? then None else Some(Snapshot(rows.value, f.nextId))
  {}

  /** A file whose rows, as far as they can be read, include the id 0 that the id index refuses. No save writes one. */
  ghost predicate HasZeroId(s: Bytes) {
    Opened(s).Some? && ZeroIdRead(GetRow, Opened(s).value.body, Opened(s).value.count)
  }

  /** The load once the front of the file is known. */
  method LoadBody(get: Bytes -> Read<Stored>, f: Front, digest: seq<nat> -> Hash) returns (st: Status, table: ChunkTable?, ghost starved: bool)
    ensures st == Ok <==> table != null
    ensures st == Ok || st == NotFound || st == OutOfMemory
    ensures st == Ok ==> GetMany(get, f.body, f.count).Got? && fresh(table) && table.Indexed() && table.digest == digest
                         && table.entries == CopiedRows(GetMany(get, f.body, f.count).value) && table.nextId == f.nextId
                         && (DistinctKeys(table.entries) ==> table.fingerprint == FingerprintOf(table.entries, digest))
    ensures !starved && st == NotFound ==> GetMany(get, f.body, f.count).Short?
    ensures !starved && st == OutOfMemory ==> ZeroIdRead(get, f.body, f.count)
  {
    var ok := TryAlloc(1);
    if !ok {
      return OutOfMemory, null, true;
    }
    var t := new ChunkTable(digest);
    st, starved := LoadRows(t, get, f.body, f.count);
    if st != Ok {
      return st, null, starved;
    }
    t.nextId := f.nextId;
    st := t.RecomputeFingerprint();
    if st != Ok {
      return st, null, true;
    }
    table := t;
  }

  /**
   `cberg_chunk_table_load`: the table in the file, or NOT_FOUND when there is no file or not a whole
   snapshot. `starved` records that an allocation failed, the only other reason to come back empty-handed.
   */
  method Load(disk: Disk, digest: seq<nat> -> Hash) returns (st: Status, table: ChunkTable?, ghost starved: bool)
    ensures st == Ok <==> table != null
    ensures st == Ok || st == NotFound || st == OutOfMemory
    ensures st == Ok ==> disk.file.Some? && fresh(table) && table.Indexed() && table.digest == digest
                         && Decode(disk.file.value) .Some? && var d := Decode(disk.file.value).value;
                            table.entries == CopiedRows(d.rows) && table.nextId == d.nextId
    ensures st == Ok && DistinctKeys(table.entries) ==> table.fingerprint == FingerprintOf(table.entries, digest)
    ensures !starved && disk.file.None? ==> st == NotFound
    ensures !starved && st == NotFound ==> disk.file.None? || Decode(disk.file.value).None?
    ensures !starved && st == OutOfMemory ==> disk.file.Some? && HasZeroId(disk.file.value)
  {
    if disk.file.None? {
      return NotFound, null, false;
    }
    DecodeOpened(disk.file.value);
    var front := Opened(disk.file.value);
    if front.None? {
      return NotFound, null, false;
    }
    st, table, starved := LoadBody(GetRow, front.value, digest);
  }

  /**
   A restart: what a save wrote, a load brings back. Unless an allocation fails, the loaded table has the
   same rows, ids, next id and fingerprint, and its indexes locate every row.
   */
  method SaveThenLoad(table: ChunkTable, disk: Disk) returns (st: Status, restored: ChunkTable?, ghost starved: bool)
    requires table.Valid() && StorableTable(table.entries, table.nextId)
    modifies disk
    ensures st == Ok ==> restored != null && restored.Valid() && restored.entries == table.entries
                         && restored.nextId == table.nextId && restored.fingerprint == table.fingerprint
    ensures st == Ok || st == Io || starved
  {
    st := Save(table, disk);
    restored, starved := null, false;
    if st != Ok {
      return;
    }
    st, restored, starved := Load(disk, table.digest);
    var bytes := Encode(table.entries, table.nextId);
    DecodeEncode(table.entries, table.nextId, []);
    assert bytes + [] == bytes;
    CopyIsWhole(table.entries);
    SavedIdsAreLive(table);
    SavedHasNoZeroId(table.entries, table.nextId);
  }

  // ---- A file cut short ----

  lemma {:induction false} ZeroIdGrows(get: Bytes -> Read<Stored>, s: Bytes, n: nat, more: Bytes)
    requires forall t: Bytes {:trigger KeepsFront(get, t, more)} :: KeepsFront(get, t, more)
    requires ZeroIdRead(get, s, n)
    ensures ZeroIdRead(get, s + more, n)
    decreases n
  {
    assert KeepsFront(get, s, more);
    if get(s).value.id != 0 {
      ZeroIdGrows(get, get(s).rest, n - 1, more);
    }
  }

  lemma OpenedFront(s: Bytes, more: Bytes)
    requires Opened(s).Some?
    ensures Opened(s + more) == Some(Front(Opened(s).value.nextId, Opened(s).value.count, Opened(s).value.body + more))
  {
    var magic := GetBytes(s, 4);
    GetBytesFront(s, 4, more);
    var version := GetInt(magic.rest, 4);
    GetIntFront(magic.rest, 4, more);
    var nextId := GetInt(version.rest, 8);
    GetIntFront(version.rest, 8, more);
    GetIntFront(nextId.rest, 8, more);
  }

  /** A row with id 0 met in a front of the file is met in the whole file. */
  lemma ZeroIdInFront(s: Bytes, more: Bytes)
    requires HasZeroId(s)
    ensures HasZeroId(s + more)
  {
    forall t: Bytes {:trigger KeepsFront(GetRow, t, more)} | true
      ensures KeepsFront(GetRow, t, more)
    {
      if GetRow(t).Got? {
        GetRowFront(t, more);
      }
    }
    OpenedFront(s, more);
    ZeroIdGrows(GetRow, Opened(s).value.body, Opened(s).value.count, more);
  }

  lemma SavedHasNoZeroId(rows: Rows, nextId: nat)
    requires StorableTable(rows, nextId) && forall i :: 0 <= i < |rows| ==> rows[i].id != 0
    ensures !HasZeroId(Encode(rows, nextId))
  {
    var bytes := Encode(rows, nextId);
    DecodeEncode(rows, nextId, []);
    assert bytes + [] == bytes;
    DecodeOpened(bytes);
    NoZeroIdRead(GetRow, Opened(bytes).value.body, Opened(bytes).value.count);
  }

  lemma CutHasNoZeroId(rows: Rows, nextId: nat, cut: nat)
    requires StorableTable(rows, nextId) && forall i :: 0 <= i < |rows| ==> rows[i].id != 0
    requires cut <= |Encode(rows, nextId)|
    ensures !HasZeroId(Encode(rows, nextId)[..cut])
  {
    SavedHasNoZeroId(rows, nextId);
    var front, back := Encode(rows, nextId)[..cut], Encode(rows, nextId)[cut..];
    assert front + back == Encode(rows, nextId);
    if HasZeroId(front) {
      ZeroIdInFront(front, back);
    }
  }

  /** Loading a snapshot that was cut short anywhere: NOT_FOUND, a cold start, unless an allocation failed first. */
  method LoadCutShort(disk: Disk, digest: seq<nat> -> Hash, ghost rows: Rows, ghost nextId: nat, ghost cut: nat)
    returns (st: Status, table: ChunkTable?, ghost starved: bool)
    requires StorableTable(rows, nextId) && forall i :: 0 <= i < |rows| ==> rows[i].id != 0
    requires cut < |Encode(rows, nextId)| && disk.file == Some(Encode(rows, nextId)[..cut])
    ensures table == null && (st == NotFound || (starved && st == OutOfMemory))
  {
    st, table, starved := Load(disk, digest);
    EveryPrefixIsNotFound(rows, nextId, cut);
    CutHasNoZeroId(rows, nextId, cut);
  }

  lemma SavedIdsAreLive(table: ChunkTable)
    requires table.Valid()
    ensures forall i :: 0 <= i < |table.entries| ==> table.entries[i].id != 0
  {
    forall i | 0 <= i < |table.entries|
      ensures table.entries[i].id != 0
    {
      RowAt(table.entries, i);
    }
  }
}
