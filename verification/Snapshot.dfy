/**
 The chunk table's snapshot: the byte format of `cberg_chunk_table_save` and the reader of
 `cberg_chunk_table_load`, over the fixed-width and length-prefixed fields of binio.
 */
module Snapshots {
  import opened Common
  import opened TableSync
  import opened Fingerprints

  type Bytes = seq<nat>

  /** `CBERG_CHUNK_TABLE_MAGIC`, "CBT1". */
  const MAGIC: Bytes := [0x43, 0x42, 0x54, 0x31]
  const VERSION: nat := 1
  /** `CBERG_BIN_STR_NULL`. */
  const STR_NULL: nat := 0xFFFF_FFFF

  /** A reader takes a value off the front of the stream, or fails on a short read. */
  datatype Read<+T> = Short | Got(value: T, rest: Bytes)

  // ---- Fixed-width integers, least significant byte first ----

  function Pow256(n: nat): (p: nat)
    ensures p > 0
  {
    if n == 0 then 1 else 256 * Pow256(n - 1)
  }

  function PutInt(v: nat, width: nat): (b: Bytes)
    ensures |b| == width
  {
    if width == 0 then [] else [v % 256] + PutInt(v / 256, width - 1)
  }

  function IntOf(b: Bytes): nat {
    if b == [] then 0 else b[0] + 256 * IntOf(b[1..])
  }

  /** `cberg_bin_r_exact`. */
  function GetBytes(s: Bytes, n: nat): (r: Read<Bytes>)
    ensures r.Got? <==> n <= |s|
    ensures r.Got? ==> s == r.value + r.rest && |r.value| == n
  {
    if n <= |s| then Got(s[..n], s[n..]) else Short
  }

  function GetInt(s: Bytes, width: nat): (r: Read<nat>)
    ensures r.Got? <==> width <= |s|
    ensures r.Got? ==> |r.rest| == |s| - width
  {
    var g := GetBytes(s, width);
    if g.Short? then Short else Got(IntOf(g.value), g.rest)
  }

  lemma {:induction false} IntRoundTrip(v: nat, width: nat)
    requires v < Pow256(width)
    ensures IntOf(PutInt(v, width)) == v
  {
    if width > 0 {
      assert v / 256 < Pow256(width - 1);
      IntRoundTrip(v / 256, width - 1);
    }
  }

  lemma GetPutInt(v: nat, width: nat, rest: Bytes)
    requires v < Pow256(width)
    ensures GetInt(PutInt(v, width) + rest, width) == Got(v, rest)
  {
    IntRoundTrip(v, width);
    assert (PutInt(v, width) + rest)[..width] == PutInt(v, width);
    assert (PutInt(v, width) + rest)[width..] == rest;
  }

  lemma GetBytesPut(b: Bytes, rest: Bytes)
    ensures GetBytes(b + rest, |b|) == Got(b, rest)
  {
    assert (b + rest)[..|b|] == b && (b + rest)[|b|..] == rest;
  }

  // ---- Strings ----

  /** A C string: bytes, none of them zero. */
  ghost predicate CString(s: string) {
    forall i :: 0 <= i < |s| ==> 0 < s[i] as nat < 256
  }

  /** The bytes read back as characters. */
  function Text(b: Bytes): (s: string)
    ensures |s| == |b|
    ensures forall i :: 0 <= i < |b| && b[i] < 256 ==> s[i] as nat == b[i]
  {
    seq(|b|, i requires 0 <= i < |b| => if b[i] < 256 then b[i] as char else '?')
  }

  lemma {:induction false} CStringIsWhole(s: string)
    requires CString(s)
    ensures CutAtZero(s) == s && Text(Fingerprints.Bytes(s)) == s
  {
    if s != [] {
      CStringIsWhole(s[1..]);
    }
  }

  /** `cberg_bin_w_str`. */
  function PutStr(s: Option<string>): Bytes {
    if s.None? then PutInt(STR_NULL, 4) else PutInt(|s.value|, 4) + Fingerprints.Bytes(s.value)
  }

  /** `cberg_bin_r_str`. */
  function GetStr(s: Bytes): (r: Read<Option<string>>) {
    var n := GetInt(s, 4);
    if n.Short? then Short
    else if n.value == STR_NULL then Got(None, n.rest)
    else
      var b := GetBytes(n.rest, n.value);
      if b.Short? then Short else Got(Some(Text(b.value)), b.rest)
  }

  ghost predicate PutsStr(s: Option<string>) {
    s.Some? ==> CString(s.value) && |s.value| < STR_NULL
  }

  lemma GetPutStr(s: Option<string>, rest: Bytes)
    requires PutsStr(s)
    ensures GetStr(PutStr(s) + rest) == Got(s, rest)
  {
    if s.None? {
      GetPutInt(STR_NULL, 4, rest);
    } else {
      var b := Fingerprints.Bytes(s.value);
      assert PutStr(s) + rest == PutInt(|s.value|, 4) + (b + rest);
      GetPutInt(|s.value|, 4, b + rest);
      GetBytesPut(b, rest);
      CStringIsWhole(s.value);
    }
  }

  // ---- Rows ----

  function PutRow(r: Stored): Bytes {
    PutHead(r.id, r.chunk.kind) + PutBody(r.chunk)
  }

  function PutHead(id: nat, kind: nat): Bytes {
    PutInt(id, 8) + PutInt(kind, 4)
  }

  function PutSpan(p: Span): Bytes {
    (PutInt(p.startByte, 4) + PutInt(p.endByte, 4)) + (PutInt(p.startLine, 4) + PutInt(p.endLine, 4))
  }

  function PutNames(c: Chunk): Bytes {
    PutStr(Some(c.key)) + (PutStr(Some(c.path)) + PutStr(c.symbol))
  }

  /** One row as the loader reads it: short, or with a NULL key or path, it is corrupt. */
  function GetRow(s: Bytes): (r: Read<Stored>) {
    RowWith(s, BodyReader())
  }

  function BodyReader(): (Bytes, nat) -> Read<Chunk> {
    (s: Bytes, kind: nat) => GetBody(s, kind)
  }

  /** The row's id and kind, then what `body` reads. */
  function RowWith(s: Bytes, body: (Bytes, nat) -> Read<Chunk>): (r: Read<Stored>) {
    var id := GetInt(s, 8);
    if id.Short? then Short else
    var kind := GetInt(id.rest, 4);
    if kind.Short? then Short else
    var c := body(kind.rest, kind.value);
    if c.Short? then Short else Got(Stored(id.value, c.value), c.rest)
  }

  function GetBody(s: Bytes, kind: nat): (r: Read<Chunk>) {
    var span := GetSpan(s);
    if span.Short? then Short else
    var hash := GetBytes(span.rest, HASH_LEN);
    if hash.Short? then Short else
    var names := GetNames(hash.rest);
    if names.Short? then Short
    else Got(names.value.(kind := kind, span := span.value, hash := hash.value), names.rest)
  }

  function GetNames(s: Bytes): (r: Read<Chunk>) {
    var key := GetStr(s);
    if key.Short? then Short else
    var path := GetStr(key.rest);
    if path.Short? then Short else
    var symbol := GetStr(path.rest);
    if symbol.Short? || key.value.None? || path.value.None? then Short
    else Got(Chunk(key.value.value, path.value.value, symbol.value, 0, Span(0, 0, 0, 0), []), symbol.rest)
  }

  function GetSpan(s: Bytes): (r: Read<Span>) {
    var a := GetInt(s, 4);
    if a.Short? then Short else
    var b := GetInt(a.rest, 4);
    if b.Short? then Short else
    var c := GetInt(b.rest, 4);
    if c.Short? then Short else
    var d := GetInt(c.rest, 4);
    if d.Short? then Short else Got(Span(a.value, b.value, c.value, d.value), d.rest)
  }

  /** What the C types and the writer's own length check guarantee of a row. */
  ghost predicate Storable(r: Stored) {
    && r.id < Pow256(8) && r.chunk.kind < Pow256(4)
    && r.chunk.span.startByte < Pow256(4) && r.chunk.span.endByte < Pow256(4)
    && r.chunk.span.startLine < Pow256(4) && r.chunk.span.endLine < Pow256(4)
    && |r.chunk.hash| == HASH_LEN
    && PutsStr(Some(r.chunk.key)) && PutsStr(Some(r.chunk.path)) && PutsStr(r.chunk.symbol)
  }

  lemma GetPutSpan(p: Span, rest: Bytes)
    requires p.startByte < Pow256(4) && p.endByte < Pow256(4) && p.startLine < Pow256(4) && p.endLine < Pow256(4)
    ensures GetSpan(PutSpan(p) + rest) == Got(p, rest)
  {
    var s3 := PutInt(p.endLine, 4) + rest;
    var s2 := PutInt(p.startLine, 4) + s3;
    var s1 := PutInt(p.endByte, 4) + s2;
    assert PutSpan(p) + rest == PutInt(p.startByte, 4) + s1;
    GetPutInt(p.startByte, 4, s1);
    GetPutInt(p.endByte, 4, s2);
    GetPutInt(p.startLine, 4, s3);
    GetPutInt(p.endLine, 4, rest);
  }

  lemma GetPutNames(c: Chunk, rest: Bytes)
    requires PutsStr(Some(c.key)) && PutsStr(Some(c.path)) && PutsStr(c.symbol)
    ensures GetNames(PutNames(c) + rest) == Got(Chunk(c.key, c.path, c.symbol, 0, Span(0, 0, 0, 0), []), rest)
  {
    var s2 := PutStr(c.symbol) + rest;
    var s1 := PutStr(Some(c.path)) + s2;
    assert PutNames(c) + rest == PutStr(Some(c.key)) + s1;
    GetPutStr(Some(c.key), s1);
    GetPutStr(Some(c.path), s2);
    GetPutStr(c.symbol, rest);
  }

  /** A row's bytes after its id and kind. */
  function PutBody(c: Chunk): Bytes {
    PutSpan(c.span) + (c.hash + PutNames(c))
  }

  lemma GetPutBody(c: Chunk, rest: Bytes)
    requires Storable(Stored(0, c))
    ensures GetBody(PutBody(c) + rest, c.kind) == Got(c, rest)
  {
    var s2 := PutNames(c) + rest;
    var s1 := c.hash + s2;
    Regroup(PutSpan(c.span), c.hash + PutNames(c), rest);
    Regroup(c.hash, PutNames(c), rest);
    GetPutSpan(c.span, s1);
    GetBytesPut(c.hash, s2);
    GetPutNames(c, rest);
  }

  lemma GetPutRow(r: Stored, rest: Bytes)
    requires Storable(r)
    ensures GetRow(PutRow(r) + rest) == Got(r, rest)
  {
    var s1 := PutBody(r.chunk) + rest;
    var s0 := PutInt(r.chunk.kind, 4) + s1;
    Regroup(PutHead(r.id, r.chunk.kind), PutBody(r.chunk), rest);
    Regroup(PutInt(r.id, 8), PutInt(r.chunk.kind, 4), s1);
    GetPutInt(r.id, 8, s0);
    GetPutInt(r.chunk.kind, 4, s1);
    GetPutBody(r.chunk, rest);
  }

  // ---- Reading more of the same stream ----

  /** A read that succeeds takes the same value off any longer stream with the same front. */
  lemma GetRowFront(s: Bytes, more: Bytes)
    requires GetRow(s).Got?
    ensures GetRow(s + more) == Got(GetRow(s).value, GetRow(s).rest + more)
  {
    forall t, kind {:trigger BodyReader()(t + more, kind)} | BodyReader()(t, kind).Got?
      ensures BodyReader()(t + more, kind) == Got(BodyReader()(t, kind).value, BodyReader()(t, kind).rest + more)
    {
      GetBodyFront(t, kind, more);
    }
    RowWithFront(s, more, BodyReader());
  }

  lemma RowWithFront(s: Bytes, more: Bytes, body: (Bytes, nat) -> Read<Chunk>)
    requires RowWith(s, body).Got?
    requires forall t, kind :: body(t, kind).Got? ==> body(t + more, kind) == Got(body(t, kind).value, body(t, kind).rest + more)
    ensures RowWith(s + more, body) == Got(RowWith(s, body).value, RowWith(s, body).rest + more)
  {
    var id := GetInt(s, 8);
    GetIntFront(s, 8, more);
    GetIntFront(id.rest, 4, more);
  }

  lemma GetBodyFront(s: Bytes, kind: nat, more: Bytes)
    requires GetBody(s, kind).Got?
    ensures GetBody(s + more, kind) == Got(GetBody(s, kind).value, GetBody(s, kind).rest + more)
  {
    var span := GetSpan(s);
    GetSpanFront(s, more);
    var hash := GetBytes(span.rest, HASH_LEN);
    GetBytesFront(span.rest, HASH_LEN, more);
    GetNamesFront(hash.rest, more);
  }

  lemma GetBytesFront(s: Bytes, n: nat, more: Bytes)
    requires GetBytes(s, n).Got?
    ensures GetBytes(s + more, n) == Got(GetBytes(s, n).value, GetBytes(s, n).rest + more)
  {
    assert (s + more)[..n] == s[..n] && (s + more)[n..] == s[n..] + more;
  }

  lemma GetIntFront(s: Bytes, width: nat, more: Bytes)
    requires GetInt(s, width).Got?
    ensures GetInt(s + more, width) == Got(GetInt(s, width).value, GetInt(s, width).rest + more)
  {
    GetBytesFront(s, width, more);
  }

  lemma GetStrFront(s: Bytes, more: Bytes)
    requires GetStr(s).Got?
    ensures GetStr(s + more) == Got(GetStr(s).value, GetStr(s).rest + more)
  {
    GetIntFront(s, 4, more);
    var n := GetInt(s, 4);
    if n.value != STR_NULL {
      GetBytesFront(n.rest, n.value, more);
    }
  }

  lemma GetSpanFront(s: Bytes, more: Bytes)
    requires GetSpan(s).Got?
    ensures GetSpan(s + more) == Got(GetSpan(s).value, GetSpan(s).rest + more)
  {
    var a := GetInt(s, 4);
    GetIntFront(s, 4, more);
    var b := GetInt(a.rest, 4);
    GetIntFront(a.rest, 4, more);
    var c := GetInt(b.rest, 4);
    GetIntFront(b.rest, 4, more);
    GetIntFront(c.rest, 4, more);
  }

  lemma GetNamesFront(s: Bytes, more: Bytes)
    requires GetNames(s).Got?
    ensures GetNames(s + more) == Got(GetNames(s).value, GetNames(s).rest + more)
  {
    var key := GetStr(s);
    GetStrFront(s, more);
    var path := GetStr(key.rest);
    GetStrFront(key.rest, more);
    GetStrFront(path.rest, more);
  }

  // ---- The whole file ----

  function PutMany<T>(put: T -> Bytes, rows: seq<T>): Bytes {
    if rows == [] then [] else put(rows[0]) + PutMany(put, rows[1..])
  }

  function PutRows(rows: Rows): Bytes {
    PutMany(PutRow, rows)
  }

  /** The file `cberg_chunk_table_save` writes. */
  function Encode(rows: Rows, nextId: nat): Bytes {
    MAGIC + (PutInt(VERSION, 4) + (PutInt(nextId, 8) + (PutInt(|rows|, 8) + PutRows(rows))))
  }

  function Header(nextId: nat, count: nat): Bytes {
    MAGIC + (PutInt(VERSION, 4) + (PutInt(nextId, 8) + PutInt(count, 8)))
  }

  lemma HeaderThenRows(rows: Rows, nextId: nat)
    ensures Encode(rows, nextId) == Header(nextId, |rows|) + PutRows(rows)
  {
    var v, n, c, r := PutInt(VERSION, 4), PutInt(nextId, 8), PutInt(|rows|, 8), PutRows(rows);
    Regroup(n, c, r);
    Regroup(v, n + c, r);
    Regroup(MAGIC, v + (n + c), r);
  }

  function GetMany<T>(get: Bytes -> Read<T>, s: Bytes, n: nat): (r: Read<seq<T>>)
    ensures r.Got? ==> |r.value| == n
    decreases n
  {
    if n == 0 then Got([], s) else
    var row := get(s);
    if row.Short? then Short else
    var more := GetMany(get, row.rest, n - 1);
    if more.Short? then Short else Got([row.value] + more.value, more.rest)
  }

  function GetRows(s: Bytes, n: nat): (r: Read<Rows>) {
    GetMany(GetRow, s, n)
  }

  datatype Snapshot = Snapshot(rows: Rows, nextId: nat)

  /** The rows and next id at the front of a file, and the bytes past them. */
  function DecodeFrom(s: Bytes): (r: Read<Snapshot>) {
    var magic := GetBytes(s, 4);
    if magic.Short? || magic.value != MAGIC then Short else
    var version := GetInt(magic.rest, 4);
    if version.Short? || version.value != VERSION then Short else
    var nextId := GetInt(version.rest, 8);
    if nextId.Short? then Short else
    var count := GetInt(nextId.rest, 8);
    if count.Short? then Short else
    var rows := GetRows(count.rest, count.value);
    if rows.Short? then Short else Got(Snapshot(rows.value, nextId.value), rows.rest)
  }

  /** What the loader makes of a file: None is what it answers NOT_FOUND to. Bytes past the last row are ignored. */
  function Decode(s: Bytes): (r: Option<Snapshot>) {
    var r := DecodeFrom(s);
    if r.Got? then Some(r.value) else None
  }

  ghost predicate StorableTable(rows: Rows, nextId: nat) {
    |rows| < Pow256(8) && nextId < Pow256(8) && forall i :: 0 <= i < |rows| ==> Storable(rows[i])
  }

  lemma GetPutRows(rows: Rows, rest: Bytes)
    requires forall i :: 0 <= i < |rows| ==> Storable(rows[i])
    ensures GetRows(PutRows(rows) + rest, |rows|) == Got(rows, rest)
  {
    forall r, more: Bytes | Storable(r)
      ensures GetRow(PutRow(r) + more) == Got(r, more)
    {
      GetPutRow(r, more);
    }
    GetManyPut(PutRow, GetRow, rows, rest);
  }

  lemma {:induction false} GetManyPut(put: Stored -> Bytes, get: Bytes -> Read<Stored>, rows: Rows, rest: Bytes)
    requires forall i :: 0 <= i < |rows| ==> Storable(rows[i])
    requires forall r, more: Bytes :: Storable(r) ==> get(put(r) + more) == Got(r, more)
    ensures GetMany(get, PutMany(put, rows) + rest, |rows|) == Got(rows, rest)
  {
    if rows == [] {
      assert PutMany(put, rows) + rest == rest;
    } else {
      assert PutMany(put, rows) + rest == put(rows[0]) + (PutMany(put, rows[1..]) + rest);
      GetManyPut(put, get, rows[1..], rest);
      assert rows == [rows[0]] + rows[1..];
    }
  }

  lemma Pow256Values()
    ensures Pow256(4) == 0x1_0000_0000 && VERSION < Pow256(4) && STR_NULL < Pow256(4)
  {
    assert Pow256(1) == 256 && Pow256(2) == 0x1_0000 && Pow256(3) == 0x100_0000;
  }

  /** What is saved is what is loaded, whatever follows it in the file. */
  lemma DecodeEncode(rows: Rows, nextId: nat, rest: Bytes)
    requires StorableTable(rows, nextId)
    ensures DecodeFrom(Encode(rows, nextId) + rest) == Got(Snapshot(rows, nextId), rest)
  {
    Pow256Values();
    var s2 := PutRows(rows) + rest;
    var s1 := PutInt(|rows|, 8) + s2;
    var s0 := PutInt(nextId, 8) + s1;
    assert Encode(rows, nextId) + rest == MAGIC + (PutInt(VERSION, 4) + s0);
    GetBytesPut(MAGIC, PutInt(VERSION, 4) + s0);
    GetPutInt(VERSION, 4, s0);
    GetPutInt(nextId, 8, s1);
    GetPutInt(|rows|, 8, s2);
    GetPutRows(rows, rest);
  }

  /** More bytes at the end of the input end up at the end of what is left. */
  ghost predicate KeepsFront<T(!new)>(get: Bytes -> Read<T>, t: Bytes, more: Bytes) {
    get(t).Got? ==> get(t + more) == Got(get(t).value, get(t).rest + more)
  }

  lemma {:induction false} GetManyFront<T(!new)>(get: Bytes -> Read<T>, s: Bytes, n: nat, more: Bytes)
    requires forall t: Bytes {:trigger KeepsFront(get, t, more)} :: KeepsFront(get, t, more)
    requires GetMany(get, s, n).Got?
    ensures GetMany(get, s + more, n) == Got(GetMany(get, s, n).value, GetMany(get, s, n).rest + more)
    decreases n
  {
    if n > 0 {
      assert KeepsFront(get, s, more);
      GetManyFront(get, get(s).rest, n - 1, more);
    }
  }

  lemma GetRowsFront(s: Bytes, n: nat, more: Bytes)
    requires GetRows(s, n).Got?
    ensures GetRows(s + more, n) == Got(GetRows(s, n).value, GetRows(s, n).rest + more)
  {
    forall t: Bytes {:trigger KeepsFront(GetRow, t, more)} | true
      ensures KeepsFront(GetRow, t, more)
    {
      if GetRow(t).Got? {
        GetRowFront(t, more);
      }
    }
    GetManyFront(GetRow, s, n, more);
  }

  lemma DecodeFront(s: Bytes, more: Bytes)
    requires DecodeFrom(s).Got?
    ensures DecodeFrom(s + more) == Got(DecodeFrom(s).value, DecodeFrom(s).rest + more)
  {
    var magic := GetBytes(s, 4);
    GetBytesFront(s, 4, more);
    var version := GetInt(magic.rest, 4);
    GetIntFront(magic.rest, 4, more);
    var nextId := GetInt(version.rest, 8);
    GetIntFront(version.rest, 8, more);
    var count := GetInt(nextId.rest, 8);
    GetIntFront(nextId.rest, 8, more);
    GetRowsFront(count.rest, count.value, more);
  }

  lemma NotEmpty(a: Bytes, b: Bytes)
    requires b != []
    ensures a + b != []
  {}

  /** If a stream is used up to its last byte, none of its fronts decodes. */
  lemma NoFrontDecodes(front: Bytes, back: Bytes, table: Snapshot)
    requires back != [] && DecodeFrom(front + back) == Got(table, [])
    ensures DecodeFrom(front).Short?
  {
    if DecodeFrom(front).Got? {
      NotEmpty(DecodeFrom(front).rest, back);
      DecodeFront(front, back);
    }
  }

  lemma CutShort(whole: Bytes, cut: nat, table: Snapshot)
    requires DecodeFrom(whole) == Got(table, []) && cut < |whole|
    ensures DecodeFrom(whole[..cut]).Short?
  {
    assert whole[..cut] + whole[cut..] == whole;
    NoFrontDecodes(whole[..cut], whole[cut..], table);
  }

  /** A file cut short anywhere is never mistaken for a table: the loader answers NOT_FOUND. */
  lemma EveryPrefixIsNotFound(rows: Rows, nextId: nat, cut: nat)
    requires StorableTable(rows, nextId) && cut < |Encode(rows, nextId)|
    ensures Decode(Encode(rows, nextId)[..cut]).None?
  {
    DecodeEncode(rows, nextId, []);
    NoTail(Encode(rows, nextId));
    CutShort(Encode(rows, nextId), cut, Snapshot(rows, nextId));
  }

  // ---- The format, byte by byte ----

  /** A 32-bit number at an offset, least significant byte first. */
  ghost predicate At4(b: Bytes, at: nat, v: nat) {
    forall n {:trigger Look(n)} :: Look(n) ==> FourIn(b, at, v)
  }

  ghost predicate FourIn(b: Bytes, at: nat, v: nat) {
    && at + 4 <= |b| && b[at] < 256 && b[at + 1] < 256 && b[at + 2] < 256 && b[at + 3] < 256
    && v == b[at] + 0x100 * b[at + 1] + 0x1_0000 * b[at + 2] + 0x100_0000 * b[at + 3]
  }

  /** A 64-bit number. */
  ghost predicate At8(b: Bytes, at: nat, v: nat) {
    forall n {:trigger Look(n)} :: Look(n) ==> EightIn(b, at, v)
  }

  ghost predicate EightIn(b: Bytes, at: nat, v: nat) {
    && at + 8 <= |b| && b[at] < 256 && b[at + 1] < 256 && b[at + 2] < 256 && b[at + 3] < 256
    && b[at + 4] < 256 && b[at + 5] < 256 && b[at + 6] < 256 && b[at + 7] < 256
    && v == b[at] + 0x100 * b[at + 1] + 0x1_0000 * b[at + 2] + 0x100_0000 * b[at + 3]
            + 0x1_0000_0000 * b[at + 4] + 0x100_0000_0000 * b[at + 5] + 0x1_0000_0000_0000 * b[at + 6] + 0x100_0000_0000_0000 * b[at + 7]
  }

  /** A text at an offset: its length, and its characters. */
  ghost predicate TextAt(b: Bytes, at: nat, t: string) {
    At4(b, at, |t|) && CharsAt(b, at + 4, t)
  }

  /** Its characters. */
  ghost predicate CharsAt(b: Bytes, at: nat, t: string) {
    forall n {:trigger Look(n)} :: Look(n) ==> at + |t| <= |b| && forall i :: 0 <= i < |t| ==> b[at + i] == t[i] as nat
  }

  lemma PutNext(v: nat, width: nat)
    ensures PutInt(v, width + 1) == [v % 256] + PutInt(v / 256, width)
  {}

  lemma FourAre(v: nat, b: nat, c: nat, d: nat)
    requires b == v / 256 && c == b / 256 && d == c / 256
    ensures PutInt(v, 4) == [v % 256, b % 256, c % 256, d % 256]
  {
    PutNext(v, 3);
    PutNext(b, 2);
    PutNext(c, 1);
    PutNext(d, 0);
  }

  lemma FourBytes(v: nat, front: Bytes, rest: Bytes, b: Bytes, at: nat)
    requires v < 0x1_0000_0000 && b == front + (PutInt(v, 4) + rest) && at == |front|
    ensures At4(b, at, v)
  {
    var x := v / 256;
    var y := x / 256;
    FourAre(v, x, y, y / 256);
  }

  lemma EightAre(v: nat, b: nat, c: nat, d: nat, high: nat)
    requires b == v / 256 && c == b / 256 && d == c / 256 && high == d / 256
    ensures PutInt(v, 8) == [v % 256, b % 256, c % 256, d % 256] + PutInt(high, 4)
  {
    PutNext(v, 7);
    PutNext(b, 6);
    PutNext(c, 5);
    PutNext(d, 4);
  }

  lemma EightBytes(v: nat, front: Bytes, rest: Bytes, s: Bytes, at: nat)
    requires v < 0x1_0000_0000_0000_0000 && s == front + (PutInt(v, 8) + rest) && at == |front|
    ensures At8(s, at, v)
  {
    var b := v / 256;
    var c := b / 256;
    var d := c / 256;
    var e := d / 256;
    var f := e / 256;
    var g := f / 256;
    var h := g / 256;
    EightAre(v, b, c, d, e);
    FourAre(e, f, g, h);
  }

  lemma TextBytes(t: string, front: Bytes, rest: Bytes, b: Bytes, at: nat)
    requires PutsStr(Some(t)) && b == front + (PutStr(Some(t)) + rest) && at == |front|
    ensures TextAt(b, at, t)
  {
    var len, chars := PutInt(|t|, 4), Fingerprints.Bytes(t);
    Regroup(len, chars, rest);
    FourBytes(|t|, front, chars + rest, b, at);
    assert forall i :: 0 <= i < |t| ==> b[at + 4 + i] == chars[i];
  }

  /** `b`, after a front, one part and the rest, as the next part sees it. */
  lemma Advance(front: Bytes, part: Bytes, rest: Bytes, b: Bytes)
    requires b == front + (part + rest)
    ensures b == (front + part) + rest
  {}

  lemma SpanLayout(p: Span, front: Bytes, rest: Bytes, b: Bytes, at: nat)
    requires p.startByte < 0x1_0000_0000 && p.endByte < 0x1_0000_0000 && p.startLine < 0x1_0000_0000 && p.endLine < 0x1_0000_0000
    requires b == front + (PutSpan(p) + rest) && at == |front|
    ensures At4(b, at, p.startByte) && At4(b, at + 4, p.endByte) && At4(b, at + 8, p.startLine) && At4(b, at + 12, p.endLine)
  {
    var (w, x, y, z) := (PutInt(p.startByte, 4), PutInt(p.endByte, 4), PutInt(p.startLine, 4), PutInt(p.endLine, 4));
    Regroup(w + x, y + z, rest);
    Regroup(w, x, (y + z) + rest);
    Regroup(y, z, rest);
    FourBytes(p.startByte, front, x + (y + (z + rest)), b, at);
    Advance(front, w, x + (y + (z + rest)), b);
    FourBytes(p.endByte, front + w, y + (z + rest), b, at + 4);
    Advance(front + w, x, y + (z + rest), b);
    FourBytes(p.startLine, front + w + x, z + rest, b, at + 8);
    Advance(front + w + x, y, z + rest, b);
    FourBytes(p.endLine, front + w + x + y, rest, b, at + 12);
  }

  /** A text or none. */
  ghost predicate NameAt(b: Bytes, at: nat, t: Option<string>) {
    if t.None? then At4(b, at, 0xFFFF_FFFF) && |b| == at + 4 else TextAt(b, at, t.value) && |b| == at + 4 + |t.value|
  }

  lemma NameBytes(t: Option<string>, front: Bytes, b: Bytes, at: nat)
    requires PutsStr(t) && b == front + PutStr(t) && at == |front|
    ensures NameAt(b, at, t)
  {
    NoTail(PutStr(t));
    if t.None? {
      FourBytes(0xFFFF_FFFF, front, [], b, at);
    } else {
      TextBytes(t.value, front, [], b, at);
    }
  }

  lemma NamesLayout(c: Chunk, front: Bytes, k: Bytes, p: Bytes, s: Bytes, b: Bytes, at: nat, pathAt: nat, symbolAt: nat)
    requires PutsStr(Some(c.key)) && PutsStr(Some(c.path)) && PutsStr(c.symbol)
    requires k == PutStr(Some(c.key)) && p == PutStr(Some(c.path)) && s == PutStr(c.symbol) && b == front + (k + (p + s))
    requires at == |front| && pathAt == |front + k| && symbolAt == |front + k + p|
    ensures TextAt(b, at, c.key) && TextAt(b, pathAt, c.path) && NameAt(b, symbolAt, c.symbol)
  {
    TextBytes(c.key, front, p + s, b, at);
    Advance(front, k, p + s, b);
    TextBytes(c.path, front + k, s, b, pathAt);
    Advance(front + k, p, s, b);
    NameBytes(c.symbol, front + k + p, b, symbolAt);
  }

  lemma StorableMeans(r: Stored)
    requires Storable(r)
    ensures r.id < 0x1_0000_0000_0000_0000 && r.chunk.kind < 0x1_0000_0000
    ensures var p := r.chunk.span;
            p.startByte < 0x1_0000_0000 && p.endByte < 0x1_0000_0000 && p.startLine < 0x1_0000_0000 && p.endLine < 0x1_0000_0000
  {
    Pow256Values();
    assert Pow256(5) == 256 * Pow256(4) && Pow256(6) == 256 * Pow256(5) && Pow256(7) == 256 * Pow256(6);
  }

  lemma Middle(front: Bytes, part: Bytes, rest: Bytes, b: Bytes)
    requires b == front + (part + rest)
    ensures |b| >= |front| + |part| && b[|front|..|front| + |part|] == part
  {}

  /** A row on disk: id and kind, the span, the 32 bytes of the hash, then key, path and symbol. */
  lemma RowLayout(r: Stored, b: Bytes)
    requires Storable(r) && b == PutRow(r)
    ensures At8(b, 0, r.id) && At4(b, 8, r.chunk.kind)
    ensures At4(b, 12, r.chunk.span.startByte) && At4(b, 16, r.chunk.span.endByte)
    ensures At4(b, 20, r.chunk.span.startLine) && At4(b, 24, r.chunk.span.endLine)
    ensures |b| >= 60 && b[28..60] == r.chunk.hash
    ensures TextAt(b, 60, r.chunk.key) && TextAt(b, 64 + |r.chunk.key|, r.chunk.path)
    ensures NameAt(b, 68 + |r.chunk.key| + |r.chunk.path|, r.chunk.symbol)
  {
    StorableMeans(r);
    var c := r.chunk;
    AllParts(r.id, c, PutInt(r.id, 8), PutInt(c.kind, 4), PutSpan(c.span), PutStr(Some(c.key)), PutStr(Some(c.path)), PutStr(c.symbol), b,
             64 + |c.key|, 68 + |c.key| + |c.path|);
  }

  lemma RowHead(id: nat, kind: nat, i: Bytes, k: Bytes, body: Bytes, b: Bytes)
    requires id < 0x1_0000_0000_0000_0000 && i == PutInt(id, 8) && kind < 0x1_0000_0000 && k == PutInt(kind, 4)
    requires b == (i + k) + body
    ensures At8(b, 0, id) && At4(b, 8, kind)
  {
    Regroup(i, k, body);
    NoTail(i + (k + body));
    EightBytes(id, [], k + body, b, 0);
    FourBytes(kind, i, body, b, 8);
  }

  lemma RowParts(front: Bytes, span: Bytes, hash: Bytes, names: Bytes, b: Bytes)
    requires |front| == 12 && |span| == 16 && |hash| == 32 && b == front + (span + (hash + names))
    ensures |b| >= 60 && b[28..60] == hash && b == b[..60] + names
  {
    Advance(front, span, hash + names, b);
    Middle(front + span, hash, names, b);
    Advance(front + span, hash, names, b);
    TakeDrop(front + span + hash, names);
  }

  lemma AllParts(id: nat, c: Chunk, i: Bytes, k: Bytes, span: Bytes, key: Bytes, path: Bytes, symbol: Bytes, b: Bytes, pathAt: nat, symbolAt: nat)
    requires id < 0x1_0000_0000_0000_0000 && i == PutInt(id, 8) && c.kind < 0x1_0000_0000 && k == PutInt(c.kind, 4) && |c.hash| == 32
    requires span == PutSpan(c.span) && key == PutStr(Some(c.key)) && path == PutStr(Some(c.path)) && symbol == PutStr(c.symbol)
    requires b == (i + k) + (span + (c.hash + (key + (path + symbol)))) && pathAt == 60 + |key| && symbolAt == 60 + |key| + |path|
    requires c.span.startByte < 0x1_0000_0000 && c.span.endByte < 0x1_0000_0000
    requires c.span.startLine < 0x1_0000_0000 && c.span.endLine < 0x1_0000_0000
    requires PutsStr(Some(c.key)) && PutsStr(Some(c.path)) && PutsStr(c.symbol)
    ensures At8(b, 0, id) && At4(b, 8, c.kind)
    ensures At4(b, 12, c.span.startByte) && At4(b, 16, c.span.endByte) && At4(b, 20, c.span.startLine) && At4(b, 24, c.span.endLine)
    ensures |b| >= 60 && b[28..60] == c.hash
    ensures TextAt(b, 60, c.key) && TextAt(b, pathAt, c.path) && NameAt(b, symbolAt, c.symbol)
  {
    var names := key + (path + symbol);
    RowHead(id, c.kind, i, k, span + (c.hash + names), b);
    SpanLayout(c.span, i + k, c.hash + names, b, 12);
    RowParts(i + k, span, c.hash, names, b);
    NamesLayout(c, b[..60], key, path, symbol, b, 60, pathAt, symbolAt);
  }

  /** The file: "CBT1", version 1, the next id, the number of rows, and the rows one after the other. */
  lemma FileLayout(rows: Rows, nextId: nat, b: Bytes)
    requires nextId < 0x1_0000_0000_0000_0000 && |rows| < 0x1_0000_0000_0000_0000 && b == Encode(rows, nextId)
    ensures |b| >= 24 && b[..4] == ['C' as nat, 'B' as nat, 'T' as nat, '1' as nat]
    ensures At4(b, 4, 1) && At8(b, 8, nextId) && At8(b, 16, |rows|) && b[24..] == PutRows(rows)
  {
    FileParts(nextId, |rows|, MAGIC, PutInt(1, 4), PutInt(nextId, 8), PutInt(|rows|, 8), PutRows(rows), b);
  }

  lemma FileParts(nextId: nat, count: nat, magic: Bytes, v: Bytes, n: Bytes, c: Bytes, r: Bytes, b: Bytes)
    requires nextId < 0x1_0000_0000_0000_0000 && count < 0x1_0000_0000_0000_0000
    requires |magic| == 4 && v == PutInt(1, 4) && n == PutInt(nextId, 8) && c == PutInt(count, 8) && b == magic + (v + (n + (c + r)))
    ensures |b| >= 24 && b[..4] == magic && At4(b, 4, 1) && At8(b, 8, nextId) && At8(b, 16, count) && b[24..] == r
  {
    FourBytes(1, magic, n + (c + r), b, 4);
    Advance(magic, v, n + (c + r), b);
    EightBytes(nextId, magic + v, c + r, b, 8);
    Advance(magic + v, n, c + r, b);
    EightBytes(count, magic + v + n, r, b, 16);
    Advance(magic + v + n, c, r, b);
  }

  /** The rows one after the other, in order. */
  lemma {:induction false} RowsLayout(rows: Rows, i: nat) returns (before: Bytes, after: Bytes)
    requires i < |rows|
    ensures PutRows(rows) == before + (PutRow(rows[i]) + after) && before == PutRows(rows[..i]) && after == PutRows(rows[i + 1..])
  {
    before, after := [], PutRows(rows[1..]);
    NoTail(PutRows(rows));
    if i > 0 {
      var front, back := RowsLayout(rows[1..], i - 1);
      assert rows[..i][1..] == rows[1..][..i - 1] && rows[1..][i..] == rows[i + 1..];
      before, after := PutRow(rows[0]) + front, back;
      Regroup(PutRow(rows[0]), front, PutRow(rows[i]) + back);
    }
  }
}
