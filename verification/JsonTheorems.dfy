/**
 What the JSON chunker's sections mean. On every input they are ordered and disjoint. On the text of a
 document whose root is a non-empty object (RFC 8259, sections 2 to 7) they are its top-level members.
 */
module JsonTheorems {
  import opened Common
  import opened StrMaps
  import opened TableSync
  import opened ChunkKeys
  import opened ChunkLists
  import opened JsonScan

  // ---- Any input ----

  /** Sections that lie between `i` and `end`, in order, none empty, none overlapping. */
  ghost predicate Ordered(secs: seq<Section>, i: nat, end: nat) {
    secs == [] || (i <= secs[0].start < secs[0].end <= end && Ordered(secs[1..], secs[0].end, end))
  }

  lemma {:induction false} OrderedFrom(secs: seq<Section>, i: nat, j: nat, end: nat)
    requires Ordered(secs, j, end) && i <= j
    ensures Ordered(secs, i, end)
  {}

  /** Whatever the bytes, the sections found are in bounds, in order and disjoint. */
  lemma {:induction false} SectionsOrdered(s: string, i: nat, line: nat)
    requires i <= |s|
    ensures Members(s, i, line).Some? ==> Ordered(Members(s, i, line).value, i, |s|)
    decreases |s| - i
  {
    match FindNext(s, i, line)
    case Unhandled =>
    case Done(None) =>
    case Done(Some(sec)) =>
      assert [sec][1..] == [];
    case Member(sec, next) =>
      SectionsOrdered(s, next.pos, next.line);
      if Members(s, next.pos, next.line).Some? {
        var rest := Members(s, next.pos, next.line).value;
        OrderedFrom(rest, sec.end, next.pos, |s|);
        assert ([sec] + rest)[1..] == rest;
      }
  }

  lemma ObjectSectionsOrdered(s: string)
    ensures ObjectSections(s).Some? ==> Ordered(ObjectSections(s).value, 0, |s|)
  {
    var w := WsEnd(s, 0, 1, false);
    if w.pos < |s| && s[w.pos] == '{' {
      SectionsOrdered(s, w.pos + 1, w.line);
      if Members(s, w.pos + 1, w.line).Some? {
        OrderedFrom(Members(s, w.pos + 1, w.line).value, 0, w.pos + 1, |s|);
      }
    }
  }

  // ---- Continuations rejoin ----

  /**
   Pieces that run from `b` to `end` without gap or overlap: each with the lines its first and its last byte are
   on, and all but the last of 200 lines.
   */
  ghost predicate Tiles(s: string, ps: seq<Piece>, symbol: Option<string>, b: nat, end: nat, bline: nat)
    requires b <= end <= |s|
  {
    if ps == [] then b == end
    else
      var p := ps[0];
      && p.symbol == symbol && p.span.startByte == b < p.span.endByte <= end
      && Newlines(s[b..p.span.endByte]) <= 200
      && (p.span.endByte < end ==> Newlines(s[b..p.span.endByte]) == 200 && s[p.span.endByte - 1] == '\n')
      && p.span.startLine == bline
      && p.span.endLine + (if s[p.span.endByte - 1] == '\n' then 1 else 0) == bline + Newlines(s[b..p.span.endByte])
      && Tiles(s, ps[1..], symbol, p.span.endByte, end, bline + Newlines(s[b..p.span.endByte]))
  }

  lemma {:induction false} PieceEndCounts(s: string, b: nat, e: nat, end: nat, nl: nat)
    requires b <= e <= end <= |s| && nl <= MAX_SECTION_LINES && nl == Newlines(s[b..e])
    ensures PieceEnd(s, e, end, nl).1 == Newlines(s[b..PieceEnd(s, e, end, nl).0])
    decreases end - e
  {
    if e < end && nl < MAX_SECTION_LINES {
      assert s[b..e + 1][..e - b] == s[b..e];
      assert s[b..e + 1][e - b] == s[e];
      PieceEndCounts(s, b, e + 1, end, if s[e] == '\n' then nl + 1 else nl);
    }
  }

  /** One piece, with the line the next one starts on. */
  lemma PieceIsTile(s: string, symbol: Option<string>, b: nat, end: nat, bline: nat) returns (e: nat, eline: nat)
    requires b < end <= |s|
    ensures b < e <= end && Newlines(s[b..e]) <= 200 && (e < end ==> Newlines(s[b..e]) == 200 && s[e - 1] == '\n')
    ensures eline + (if s[e - 1] == '\n' then 1 else 0) == bline + Newlines(s[b..e])
    ensures Pieces(s, symbol, b, end, bline) == [Piece(Kept(symbol), Span(b, e, bline, eline))] + Pieces(s, symbol, e, end, eline + 1)
  {
    assert s[b..b] == "";
    PieceEndCounts(s, b, b, end, 0);
    var nl := PieceEnd(s, b, end, 0).1;
    e := PieceEnd(s, b, end, 0).0;
    eline := LastLine(s, e, bline, nl);
    assert s[b..e][..e - b - 1] == s[b..e - 1] && s[b..e][e - b - 1] == s[e - 1];
    PiecesStep(s, symbol, b, end, bline, e, nl, eline);
  }

  /** The pieces of a section rejoin to the section, and their line numbers are right. */
  lemma {:induction false} PiecesTile(s: string, symbol: Option<string>, b: nat, end: nat, bline: nat)
    requires b <= end <= |s|
    ensures Tiles(s, Pieces(s, symbol, b, end, bline), Kept(symbol), b, end, bline)
    decreases end - b
  {
    if b < end {
      var e, eline := PieceIsTile(s, symbol, b, end, bline);
      HeadAndTail(Piece(Kept(symbol), Span(b, e, bline, eline)), Pieces(s, symbol, e, end, eline + 1));
      if e < end {
        PiecesTile(s, symbol, e, end, eline + 1);
      } else {
        LastTile(s, Kept(symbol), end, eline + 1, bline + Newlines(s[b..e]));
      }
    }
  }

  lemma LastTile(s: string, symbol: Option<string>, end: nat, line: nat, line': nat)
    requires end <= |s|
    ensures Tiles(s, [], symbol, end, end, line') && forall sym :: Pieces(s, sym, end, end, line) == []
  {}

  // ---- RFC 8259 documents ----

  /**
   Concrete syntax: a value with all its whitespace, so that every text of the grammar is some value's text.
   `Lit` stands for numbers and for true, false and null.
   */
  datatype Value =
    | Lit(text: string)
    | Str(body: string)
    | EmptyArr(ws: string)
    | Arr(items: Items)
    | EmptyObj(ws: string)
    | Obj(mems: Mems)

  datatype Items =
    | LastItem(before: string, value: Value, after: string)
    | MoreItems(before: string, value: Value, after: string, rest: Items)

  datatype Mems =
    | LastMem(before: string, key: string, afterKey: string, beforeValue: string, value: Value, after: string)
    | MoreMems(before: string, key: string, afterKey: string, beforeValue: string, value: Value, after: string, rest: Mems)

  function ValueText(v: Value): string {
    match v
    case Lit(t) => t
    case Str(b) => "\"" + (b + "\"")
    case EmptyArr(ws) => "[" + (ws + "]")
    case Arr(items) => "[" + (ItemsText(items) + "]")
    case EmptyObj(ws) => "{" + (ws + "}")
    case Obj(mems) => "{" + (MemsText(mems) + "}")
  }

  function ItemsText(it: Items): string {
    match it
    case LastItem(b, v, a) => b + (ValueText(v) + a)
    case MoreItems(b, v, a, rest) => b + (ValueText(v) + (a + ("," + ItemsText(rest))))
  }

  /** A member from its key's opening quote up to its value. */
  function KeyText(key: string, afterKey: string, beforeValue: string): string {
    "\"" + (key + ("\"" + (afterKey + (":" + beforeValue))))
  }

  function MemsText(m: Mems): string {
    match m
    case LastMem(b, k, ak, bv, v, a) => b + (KeyText(k, ak, bv) + (ValueText(v) + a))
    case MoreMems(b, k, ak, bv, v, a, rest) => b + (KeyText(k, ak, bv) + (ValueText(v) + (a + ("," + MemsText(rest)))))
  }

  /** Section 2 of RFC 8259. */
  predicate IsWs(t: string) {
    forall i :: 0 <= i < |t| ==> Space(t[i])
  }

  /** No quote, bracket, comma or whitespace: every number and literal name of sections 3 and 6 of RFC 8259 is such a text. */
  predicate IsLiteral(t: string) {
    t != "" && forall i :: 0 <= i < |t| ==> !Space(t[i]) && PlainChar(t[i]) && t[i] != ','
  }

  predicate PlainChar(c: char) {
    c != '"' && c != '{' && c != '}' && c != '[' && c != ']'
  }

  /** Section 7 of RFC 8259: no bare quote, no control character, and an escape is a backslash and a character that is none. */
  predicate IsStringBody(b: string) {
    b == "" ||
    if b[0] == '\\' then |b| >= 2 && b[1] >= ' ' && IsStringBody(b[2..])
    else b[0] != '"' && b[0] >= ' ' && IsStringBody(b[1..])
  }

  predicate ValueOk(v: Value) {
    match v
    case Lit(t) => IsLiteral(t)
    case Str(b) => IsStringBody(b)
    case EmptyArr(ws) => IsWs(ws)
    case Arr(items) => ItemsOk(items)
    case EmptyObj(ws) => IsWs(ws)
    case Obj(mems) => MemsOk(mems)
  }

  predicate ItemsOk(it: Items) {
    && IsWs(it.before) && ValueOk(it.value) && IsWs(it.after)
    && (it.MoreItems? ==> ItemsOk(it.rest))
  }

  predicate MemsOk(m: Mems) {
    && IsWs(m.before) && IsStringBody(m.key) && IsWs(m.afterKey) && IsWs(m.beforeValue) && ValueOk(m.value) && IsWs(m.after)
    && (m.MoreMems? ==> MemsOk(m.rest))
  }

  /** A document: whitespace, a non-empty object, whitespace. */
  datatype Doc = Doc(before: string, mems: Mems, after: string)

  predicate DocOk(d: Doc) {
    IsWs(d.before) && MemsOk(d.mems) && IsWs(d.after)
  }

  function DocText(d: Doc): string {
    d.before + ("{" + (MemsText(d.mems) + ("}" + d.after)))
  }

  // ---- Positions and lines ----

  /** `t` stands at `i`. */
  ghost predicate AtText(s: string, i: nat, t: string) {
    forall n {:trigger Look(n)} :: Look(n) ==> i + |t| <= |s| && s[i..i + |t|] == t
  }

  lemma Fits(s: string, i: nat, t: string)
    requires AtText(s, i, t)
    ensures i + |t| <= |s| && s[i..i + |t|] == t
  {
    assert Look(0);
  }

  lemma AtAll(s: string)
    ensures AtText(s, 0, s)
  {}

  lemma AtSplit(s: string, i: nat, a: string, b: string)
    requires AtText(s, i, a + b)
    ensures AtText(s, i, a) && AtText(s, i + |a|, b)
  {
    Fits(s, i, a + b);
    assert s[i..i + |a + b|][..|a|] == a;
    assert s[i..i + |a + b|][|a|..] == b;
  }

  lemma AtChar(s: string, i: nat, t: string, k: nat)
    requires AtText(s, i, t) && k < |t|
    ensures i + |t| <= |s| && s[i + k] == t[k]
  {
    Fits(s, i, t);
    assert s[i..i + |t|][k] == t[k];
  }

  /** The line a byte is on, counted from 1. */
  function LineAt(s: string, i: nat): nat
    requires i <= |s|
  {
    1 + Newlines(s[..i])
  }

  lemma LineNext(s: string, i: nat)
    requires i < |s|
    ensures LineAt(s, i + 1) == LineAt(s, i) + if s[i] == '\n' then 1 else 0
  {
    assert s[..i + 1][..i] == s[..i];
  }

  lemma {:induction false} LinesSame(s: string, i: nat, n: nat)
    requires i + n <= |s| && forall k :: i <= k < i + n ==> s[k] != '\n'
    ensures LineAt(s, i + n) == LineAt(s, i)
  {
    if n > 0 {
      LinesSame(s, i, n - 1);
      LineNext(s, i + n - 1);
    }
  }

  lemma BodyRest(s: string, i: nat, b: string, n: nat)
    requires n <= |b| && AtText(s, i, b + "\"")
    ensures AtText(s, i + n, b[n..] + "\"")
  {
    assert b + "\"" == b[..n] + (b[n..] + "\"");
    AtSplit(s, i, b[..n], b[n..] + "\"");
  }

  /** A string body is read to its closing quote, on one line. */
  lemma {:induction false} ReadString(s: string, i: nat, b: string)
    requires AtText(s, i, b + "\"") && IsStringBody(b)
    ensures i + |b| + 1 <= |s| && StringEnd(s, i, LineAt(s, i)) == At(i + |b| + 1, LineAt(s, i + |b| + 1))
    decreases |b|
  {
    var t := b + "\"";
    AtChar(s, i, t, 0);
    if b == "" {
      LineNext(s, i);
    } else if b[0] == '\\' {
      AtChar(s, i, t, 1);
      LineNext(s, i);
      LineNext(s, i + 1);
      BodyRest(s, i, b, 2);
      ReadString(s, i + 2, b[2..]);
    } else {
      LineNext(s, i);
      BodyRest(s, i, b, 1);
      ReadString(s, i + 1, b[1..]);
    }
  }

  /** Whitespace (and, after a value, its comma) is skipped to the next character that is neither, if that starts no comment. */
  lemma {:induction false} SkipJunk(s: string, i: nat, n: nat, comma: bool)
    requires i + n <= |s| && forall k :: i <= k < i + n ==> Space(s[k]) || (comma && s[k] == ',')
    requires i + n < |s| ==> !Space(s[i + n]) && s[i + n] != '/' && s[i + n] != ','
    ensures WsEnd(s, i, LineAt(s, i), comma) == At(i + n, LineAt(s, i + n))
    decreases n
  {
    if n > 0 {
      LineNext(s, i);
      SkipJunk(s, i + 1, n - 1, comma);
    }
  }

  // ---- Passing over nested text ----

  /** Inside brackets, text with no quote and no bracket changes nothing but the position. */
  lemma {:induction false} PassPlain(s: string, i: nat, n: nat, depth: nat)
    requires i + n <= |s| && depth > 0 && forall k :: i <= k < i + n ==> PlainChar(s[k])
    ensures ValueEnd(s, i, depth, LineAt(s, i)) == ValueEnd(s, i + n, depth, LineAt(s, i + n))
    decreases n
  {
    if n > 0 {
      LineNext(s, i);
      PassPlain(s, i + 1, n - 1, depth);
    }
  }

  /** Which text stands where, how the value scan goes on from a position, and what it is to stop there. */
  datatype Scan = Scan(at: (nat, string) -> bool, go: (nat, nat) -> At, stop: nat -> At)

  /** A text in two parts stands in two places. */
  ghost predicate SplitRule(x: Scan, i: nat, a: string, b: string) {
    x.at(i, a + b) ==> x.at(i, a) && x.at(i + |a|, b)
  }

  ghost predicate TextRule(x: Scan, i: nat, t: string, depth: nat) {
    x.at(i, t) && depth > 0 && (forall k :: 0 <= k < |t| ==> PlainChar(t[k])) ==> x.go(i, depth) == x.go(i + |t|, depth)
  }

  ghost predicate StringRule(x: Scan, i: nat, b: string, depth: nat) {
    x.at(i, "\"" + (b + "\"")) && IsStringBody(b) ==> x.go(i, depth) == x.go(i + (|b| + 2), depth)
  }

  /** One level down and back up; at depth 0 the closing bracket ends the value. */
  ghost predicate BracketRule(x: Scan, i: nat, opener: string, inside: string, closer: string, depth: nat) {
    x.at(i, opener + (inside + closer)) && (opener == "[" || opener == "{") && (closer == "]" || closer == "}")
    && x.go(i + 1, depth + 1) == x.go(i + 1 + |inside|, depth + 1) ==>
      x.go(i, depth) == if depth == 0 then x.stop(i + (|inside| + 2)) else x.go(i + (|inside| + 2), depth)
  }

  ghost predicate Rules(x: Scan) {
    && (forall i: nat, a: string, b: string {:trigger SplitRule(x, i, a, b)} :: SplitRule(x, i, a, b))
    && (forall i: nat, t: string, d: nat {:trigger TextRule(x, i, t, d)} :: TextRule(x, i, t, d))
    && (forall i: nat, b: string, d: nat {:trigger StringRule(x, i, b, d)} :: StringRule(x, i, b, d))
    && (forall i: nat, o: string, t: string, c: string, d: nat {:trigger BracketRule(x, i, o, t, c, d)} :: BracketRule(x, i, o, t, c, d))
  }

  /** At any depth inside brackets, a whole value is passed over. */
  lemma {:induction false} PassValue(x: Scan, i: nat, v: Value, depth: nat)
    requires Rules(x) && x.at(i, ValueText(v)) && ValueOk(v) && depth > 0
    ensures x.go(i, depth) == x.go(i + |ValueText(v)|, depth)
    decreases v, 1
  {
    match v
    case Lit(t) => assert TextRule(x, i, t, depth);
    case Str(b) => assert StringRule(x, i, b, depth);
    case _ => PassNested(x, i, v, depth);
  }

  /** An array or object is passed over at any depth, and at depth 0 ends the value. */
  lemma {:induction false} PassNested(x: Scan, i: nat, v: Value, depth: nat)
    requires Rules(x) && x.at(i, ValueText(v)) && ValueOk(v) && !v.Lit? && !v.Str?
    ensures x.go(i, depth) == if depth == 0 then x.stop(i + |ValueText(v)|) else x.go(i + |ValueText(v)|, depth)
    decreases v, 0
  {
    match v
    case EmptyArr(ws) =>
      InsideAt(x, i, "[", ws, "]");
      assert TextRule(x, i + 1, ws, depth + 1);
      assert BracketRule(x, i, "[", ws, "]", depth);
    case EmptyObj(ws) =>
      InsideAt(x, i, "{", ws, "}");
      assert TextRule(x, i + 1, ws, depth + 1);
      assert BracketRule(x, i, "{", ws, "}", depth);
    case Arr(items) =>
      InsideAt(x, i, "[", ItemsText(items), "]");
      PassItems(x, i + 1, items, depth + 1);
      assert BracketRule(x, i, "[", ItemsText(items), "]", depth);
    case Obj(mems) =>
      InsideAt(x, i, "{", MemsText(mems), "}");
      PassMems(x, i + 1, mems, depth + 1);
      assert BracketRule(x, i, "{", MemsText(mems), "}", depth);
  }

  lemma InsideAt(x: Scan, i: nat, opener: string, inside: string, closer: string)
    requires Rules(x) && x.at(i, opener + (inside + closer)) && |opener| == 1
    ensures x.at(i + 1, inside)
  {
    assert SplitRule(x, i, opener, inside + closer) && SplitRule(x, i + 1, inside, closer);
  }

  /** Where the parts of an entry lie: what is before it, itself, what is after it. */
  lemma EntryAt(x: Scan, i: nat, before: string, text: string, tail: string)
    requires Rules(x) && x.at(i, before + (text + tail))
    ensures x.at(i, before) && x.at(i + |before|, text) && x.at(i + |before| + |text|, tail)
  {
    assert SplitRule(x, i, before, text + tail) && SplitRule(x, i + |before|, text, tail);
  }

  /** What follows a value: whitespace, and before another entry a comma. */
  function After(after: string, last: bool, more: string): string {
    if last then after else after + ("," + more)
  }

  lemma PassAfter(x: Scan, k: nat, after: string, last: bool, more: string, depth: nat) returns (j: nat)
    requires Rules(x) && IsWs(after) && depth > 0 && x.at(k, After(after, last, more))
    ensures j == k + |after| + if last then 0 else 1
    ensures (!last ==> x.at(j, more)) && x.go(k, depth) == x.go(j, depth)
  {
    assert TextRule(x, k, after, depth);
    j := k + |after|;
    if !last {
      assert SplitRule(x, k, after, "," + more) && SplitRule(x, j, ",", more);
      assert TextRule(x, j, ",", depth);
      j := j + 1;
    }
  }

  lemma {:induction false} PassItems(x: Scan, i: nat, it: Items, depth: nat)
    requires Rules(x) && x.at(i, ItemsText(it)) && ItemsOk(it) && depth > 0
    ensures x.go(i, depth) == x.go(i + |ItemsText(it)|, depth)
    decreases it
  {
    var more := if it.LastItem? then "" else ItemsText(it.rest);
    var text, tail := ValueText(it.value), After(it.after, it.LastItem?, more);
    assert ItemsText(it) == it.before + (text + tail);
    EntryAt(x, i, it.before, text, tail);
    var j := i + |it.before|;
    assert TextRule(x, i, it.before, depth);
    PassValue(x, j, it.value, depth);
    var l := PassAfter(x, j + |text|, it.after, it.LastItem?, more, depth);
    if it.MoreItems? {
      PassItems(x, l, it.rest, depth);
    }
  }

  lemma PassKey(x: Scan, i: nat, key: string, afterKey: string, beforeValue: string, depth: nat)
    requires Rules(x) && x.at(i, KeyText(key, afterKey, beforeValue)) && IsStringBody(key) && IsWs(afterKey) && IsWs(beforeValue) && depth > 0
    ensures x.go(i, depth) == x.go(i + |KeyText(key, afterKey, beforeValue)|, depth)
  {
    var lit, colon := "\"" + (key + "\""), afterKey + (":" + beforeValue);
    assert KeyText(key, afterKey, beforeValue) == lit + colon;
    assert SplitRule(x, i, lit, colon);
    assert StringRule(x, i, key, depth);
    assert TextRule(x, i + |lit|, colon, depth);
  }

  /** Where the parts of a member lie. */
  lemma MemParts(x: Scan, i: nat, m: Mems, key: string, text: string, tail: string)
    requires Rules(x) && x.at(i, m.before + (key + (text + tail)))
    ensures x.at(i, m.before) && x.at(i + |m.before|, key)
    ensures x.at(i + |m.before| + |key|, text) && x.at(i + |m.before| + |key| + |text|, tail)
  {
    EntryAt(x, i, m.before, key, text + tail);
    assert SplitRule(x, i + |m.before| + |key|, text, tail);
  }

  lemma MemsTextIs(m: Mems, more: string)
    requires more == if m.LastMem? then "" else MemsText(m.rest)
    ensures MemsText(m)
         == m.before + (KeyText(m.key, m.afterKey, m.beforeValue) + (ValueText(m.value) + After(m.after, m.LastMem?, more)))
  {}

  lemma {:induction false} PassMems(x: Scan, i: nat, m: Mems, depth: nat)
    requires Rules(x) && x.at(i, MemsText(m)) && MemsOk(m) && depth > 0
    ensures x.go(i, depth) == x.go(i + |MemsText(m)|, depth)
    decreases m
  {
    var more := if m.LastMem? then "" else MemsText(m.rest);
    var key, text, tail := KeyText(m.key, m.afterKey, m.beforeValue), ValueText(m.value), After(m.after, m.LastMem?, more);
    MemsTextIs(m, more);
    MemParts(x, i, m, key, text, tail);
    var j := i + |m.before|;
    var k := j + |key|;
    assert TextRule(x, i, m.before, depth);
    PassKey(x, j, m.key, m.afterKey, m.beforeValue, depth);
    PassValue(x, k, m.value, depth);
    var l := PassAfter(x, k + |text|, m.after, m.LastMem?, more, depth);
    if m.MoreMems? {
      PassMems(x, l, m.rest, depth);
    }
  }

  // ---- The rules hold of the scanner ----

  ghost function GoOf(s: string, i: nat, depth: nat): At {
    if i <= |s| then ValueEnd(s, i, depth, LineAt(s, i)) else At(0, 0)
  }

  ghost function StopOf(s: string, i: nat): At {
    if i <= |s| then At(i, LineAt(s, i)) else At(0, 0)
  }

  ghost function ScanOf(s: string): Scan {
    Scan((i: nat, t: string) => AtText(s, i, t), (i: nat, d: nat) => GoOf(s, i, d), (i: nat) => StopOf(s, i))
  }

  lemma ScanText(s: string, i: nat, t: string, depth: nat)
    ensures TextRule(ScanOf(s), i, t, depth)
  {
    if AtText(s, i, t) && depth > 0 && forall k :: 0 <= k < |t| ==> PlainChar(t[k]) {
      Fits(s, i, t);
      forall k | i <= k < i + |t|
        ensures PlainChar(s[k])
      {
        AtChar(s, i, t, k - i);
      }
      PassPlain(s, i, |t|, depth);
    }
  }

  lemma ScanString(s: string, i: nat, b: string, depth: nat)
    ensures StringRule(ScanOf(s), i, b, depth)
  {
    if AtText(s, i, "\"" + (b + "\"")) && IsStringBody(b) {
      AtChar(s, i, "\"" + (b + "\""), 0);
      AtSplit(s, i, "\"", b + "\"");
      LineNext(s, i);
      ReadString(s, i + 1, b);
    }
  }

  lemma ScanBrackets(s: string, i: nat, opener: string, inside: string, closer: string, depth: nat)
    ensures BracketRule(ScanOf(s), i, opener, inside, closer, depth)
  {
    if AtText(s, i, opener + (inside + closer)) && (opener == "[" || opener == "{") && (closer == "]" || closer == "}") {
      var j := i + 1 + |inside|;
      AtChar(s, i, opener + (inside + closer), 0);
      AtChar(s, i, opener + (inside + closer), 1 + |inside|);
      LineNext(s, i);
      LineNext(s, j);
      assert GoOf(s, i, depth) == GoOf(s, i + 1, depth + 1);
      assert GoOf(s, j, depth + 1) == if depth == 0 then StopOf(s, j + 1) else GoOf(s, j + 1, depth);
    }
  }

  lemma ScanRules(s: string)
    ensures Rules(ScanOf(s))
  {
    var x := ScanOf(s);
    forall i: nat, a: string, b: string {:trigger SplitRule(x, i, a, b)} | true
      ensures SplitRule(x, i, a, b)
    {
      if AtText(s, i, a + b) {
        AtSplit(s, i, a, b);
      }
    }
    forall i: nat, t: string, d: nat {:trigger TextRule(x, i, t, d)} | true
      ensures TextRule(x, i, t, d)
    {
      ScanText(s, i, t, d);
    }
    forall i: nat, b: string, d: nat {:trigger StringRule(x, i, b, d)} | true
      ensures StringRule(x, i, b, d)
    {
      ScanString(s, i, b, d);
    }
    forall i: nat, o: string, t: string, c: string, d: nat {:trigger BracketRule(x, i, o, t, c, d)} | true
      ensures BracketRule(x, i, o, t, c, d)
    {
      ScanBrackets(s, i, o, t, c, d);
    }
  }

  // ---- Members of the root ----

  /** Outside all brackets, text with no quote, bracket or comma is passed over too. */
  lemma {:induction false} PassBare(s: string, i: nat, n: nat)
    requires i + n <= |s| && forall k :: i <= k < i + n ==> PlainChar(s[k]) && s[k] != ','
    ensures GoOf(s, i, 0) == GoOf(s, i + n, 0)
    decreases n
  {
    if n > 0 {
      LineNext(s, i);
      PassBare(s, i + 1, n - 1);
    }
  }

  lemma PassBareText(s: string, i: nat, t: string)
    requires AtText(s, i, t) && forall k :: 0 <= k < |t| ==> PlainChar(t[k]) && t[k] != ','
    ensures GoOf(s, i, 0) == GoOf(s, i + |t|, 0)
  {
    Fits(s, i, t);
    forall k | i <= k < i + |t|
      ensures PlainChar(s[k]) && s[k] != ','
    {
      AtChar(s, i, t, k - i);
    }
    PassBare(s, i, |t|);
  }

  predicate IsScalar(v: Value) {
    v.Lit? || v.Str?
  }

  /** `t` is the text of the well-formed value `v`: a fact to carry, not to look into. */
  ghost predicate Shown(v: Value, t: string) {
    forall n {:trigger Look(n)} :: Look(n) ==> ValueOk(v) && t == ValueText(v)
  }

  /** How far from its first byte the scan of a value stops: at its closing bracket, or at the comma or brace after it. */
  function StopAfter(v: Value, t: string, after: string): nat {
    |t| + if IsScalar(v) then |after| else 0
  }

  /** A number or name is passed over outside all brackets; so is a string. */
  lemma PassScalar(s: string, k: nat, v: Value, t: string)
    requires Shown(v, t) && IsScalar(v) && AtText(s, k, t)
    ensures GoOf(s, k, 0) == GoOf(s, k + |t|, 0)
  {
    assert Look(0);
    if v.Lit? {
      PassBareText(s, k, t);
    } else {
      ScanString(s, k, v.body, 0);
    }
  }

  lemma StopBare(s: string, e: nat, c: string)
    requires AtText(s, e, c) && (c == "," || c == "}")
    ensures e < |s| && GoOf(s, e, 0) == StopOf(s, e)
  {
    AtChar(s, e, c, 0);
  }

  lemma PassComposite(s: string, k: nat, v: Value, t: string)
    requires Shown(v, t) && !IsScalar(v) && AtText(s, k, t)
    ensures GoOf(s, k, 0) == StopOf(s, k + |t|) && k + |t| <= |s|
  {
    assert Look(0);
    ScanRules(s);
    PassNested(ScanOf(s), k, v, 0);
  }

  /** From its first byte, the scan of a value stops where it should, with the line right. */
  lemma ValueRead(s: string, k: nat, v: Value, t: string, after: string, c: string, rest: string)
    requires AtText(s, k, t + (after + (c + rest))) && Shown(v, t) && IsWs(after) && (c == "," || c == "}")
    ensures GoOf(s, k, 0) == StopOf(s, k + StopAfter(v, t, after)) && k + StopAfter(v, t, after) <= |s|
  {
    var e := k + |t|;
    AtSplit(s, k, t, after + (c + rest));
    AtSplit(s, e, after, c + rest);
    AtSplit(s, e + |after|, c, rest);
    if IsScalar(v) {
      PassScalar(s, k, v, t);
      PassBareText(s, e, after);
      StopBare(s, e + |after|, c);
    } else {
      PassComposite(s, k, v, t);
    }
  }

  /** A value's text does not end in whitespace. */
  lemma LastIsNotSpace(v: Value, t: string)
    requires Shown(v, t)
    ensures t != "" && !Space(t[|t| - 1])
  {
    assert Look(0);
  }

  lemma {:induction false} TrimTo(s: string, lo: nat, m: nat, e: nat)
    requires lo < m <= e <= |s| && !Space(s[m - 1]) && forall k :: m <= k < e ==> Space(s[k])
    ensures TrimEnd(s, lo, e) == m
  {
    if m < e {
      TrimTo(s, lo, m, e - 1);
    }
  }

  // What the code's readings come to, position by position with the line right. Each is a fact to carry.

  /** A string literal from `q` to `k` with the given body. */
  ghost predicate StrTo(s: string, q: nat, k: nat, body: string) {
    forall n {:trigger Look(n)} :: Look(n) ==>
      && q + 1 < k <= |s| && s[q] == '"' && s[q + 1..k - 1] == body
      && StringEnd(s, q + 1, LineAt(s, q)) == At(k, LineAt(s, k))
  }

  /** Whitespace from `k` to `c`, and commas if they may be skipped. */
  ghost predicate WsTo(s: string, k: nat, c: nat, comma: bool) {
    forall n {:trigger Look(n)} :: Look(n) ==>
      k <= c <= |s| && WsEnd(s, k, LineAt(s, k), comma) == At(c, LineAt(s, c))
  }

  /** From the colon at `c` the value scan stops at `e`. */
  ghost predicate ValueTo(s: string, c: nat, e: nat) {
    forall n {:trigger Look(n)} :: Look(n) ==>
      c < e <= |s| && s[c] == ':' && ValueEnd(s, c + 1, 0, LineAt(s, c)) == At(e, LineAt(s, e))
  }

  ghost predicate TrimsTo(s: string, lo: nat, e: nat, m: nat) {
    forall n {:trigger Look(n)} :: Look(n) ==> lo < m <= e <= |s| && TrimEnd(s, lo, e) == m
  }

  /** At `q` the code reads a member with this key, ending at `m`, and goes on at `e`. */
  ghost predicate MemberTo(s: string, q: nat, key: string, m: nat, e: nat) {
    forall n {:trigger Look(n)} :: Look(n) ==>
      && q < m <= e <= |s| && s[q] == '"'
      && MemberOf(s, At(q, LineAt(s, q))) == Member(Section(Some(key), q, m, LineAt(s, q)), At(e, LineAt(s, e)))
  }

  /** From `p` on the code finds these sections. */
  ghost predicate Finds(s: string, p: nat, secs: seq<Section>) {
    forall n {:trigger Look(n)} :: Look(n) ==> p <= |s| && Members(s, p, LineAt(s, p)) == Some(secs)
  }

  lemma StrThen(s: string, q: nat, k: nat, key: string)
    requires q + 1 < k <= |s| && s[q] == '"' && AtText(s, q + 1, key) && k == q + |key| + 2
    requires StringEnd(s, q + 1, LineAt(s, q + 1)) == At(k, LineAt(s, k))
    ensures StrTo(s, q, k, key)
  {
    Fits(s, q + 1, key);
    LineNext(s, q);
  }

  lemma QuoteSplit(s: string, q: nat, rest: string)
    requires AtText(s, q, "\"" + rest)
    ensures q < |s| && s[q] == '"' && AtText(s, q + 1, rest)
  {
    AtChar(s, q, "\"" + rest, 0);
    AtSplit(s, q, "\"", rest);
  }

  lemma StrRead(s: string, q: nat, k: nat, key: string)
    requires AtText(s, q, Literal(key)) && IsStringBody(key) && k == q + |key| + 2
    ensures StrTo(s, q, k, key)
  {
    QuoteSplit(s, q, key + "\"");
    ReadString(s, q + 1, key);
    AtSplit(s, q + 1, key, "\"");
    StrThen(s, q, k, key);
  }

  lemma WsRead(s: string, k: nat, c: nat, ws: string, comma: bool)
    requires AtText(s, k, ws) && c == k + |ws| && (forall i :: 0 <= i < |ws| ==> Space(ws[i]) || (comma && ws[i] == ','))
    requires c < |s| ==> !Space(s[c]) && s[c] != '/' && s[c] != ','
    ensures WsTo(s, k, c, comma)
  {
    Fits(s, k, ws);
    forall j | k <= j < c
      ensures Space(s[j]) || (comma && s[j] == ',')
    {
      AtChar(s, k, ws, j - k);
    }
    SkipJunk(s, k, |ws|, comma);
  }

  lemma ColonRead(s: string, c: nat, e: nat, beforeValue: string, v: Value, t: string, after: string, end: string, rest: string)
    requires AtText(s, c, ":" + (beforeValue + (t + (after + (end + rest))))) && (end == "," || end == "}")
    requires IsWs(beforeValue) && Shown(v, t) && IsWs(after) && e == c + 1 + |beforeValue| + StopAfter(v, t, after)
    ensures ValueTo(s, c, e)
  {
    var tail := t + (after + (end + rest));
    AtSplit(s, c, ":", beforeValue + tail);
    AtChar(s, c, ":", 0);
    AtSplit(s, c + 1, beforeValue, tail);
    PassBareText(s, c + 1, beforeValue);
    ValueRead(s, c + 1 + |beforeValue|, v, t, after, end, rest);
    ColonThen(s, c, e);
  }

  lemma ColonThen(s: string, c: nat, e: nat)
    requires c < |s| && s[c] == ':' && c < e <= |s| && GoOf(s, c + 1, 0) == StopOf(s, e)
    ensures ValueTo(s, c, e)
  {
    LineNext(s, c);
  }

  lemma TrimRead(s: string, lo: nat, k: nat, m: nat, e: nat, v: Value, t: string, after: string, end: string, rest: string)
    requires AtText(s, k, t + (after + (end + rest))) && Shown(v, t) && IsWs(after) && lo < k
    requires m == k + |t| && e == k + StopAfter(v, t, after)
    ensures TrimsTo(s, lo, e, m)
  {
    AtSplit(s, k, t, after + (end + rest));
    AtSplit(s, m, after, end + rest);
    LastIsNotSpace(v, t);
    AtChar(s, k, t, |t| - 1);
    forall j | m <= j < m + |after|
      ensures j < |s| && Space(s[j])
    {
      AtChar(s, m, after, j - m);
    }
    Fits(s, m, after);
    TrimTo(s, lo, m, e);
  }

  lemma {:induction false} BodyIsText(key: string)
    requires IsStringBody(key)
    ensures forall i :: 0 <= i < |key| ==> key[i] >= ' '
    decreases |key|
  {
    if key != "" {
      if key[0] == '\\' {
        BodyIsText(key[2..]);
      } else {
        BodyIsText(key[1..]);
      }
    }
  }

  /** A key that fits is its own symbol. */
  lemma KeyIsSymbol(key: string)
    requires IsStringBody(key) && |key| < IDENT_MAX
    ensures CopySym(key) == key
  {
    BodyIsText(key);
  }

  /** The parts of one member's reading, put together as the code does. */
  lemma MemberFrom(s: string, q: nat, k: nat, c: nat, e: nat, m: nat, key: string)
    requires StrTo(s, q, k, key) && WsTo(s, k, c, false) && ValueTo(s, c, e) && TrimsTo(s, q, e, m)
    requires CopySym(key) == key
    ensures MemberTo(s, q, key, m, e)
  {
    assert Look(0);
  }

  // ---- One entry of the root object ----

  /** A member as it stands in the text: what is before it, its parts, the text of its value, and what follows. */
  datatype Entry = Entry(before: string, key: string, afterKey: string, beforeValue: string, value: Value, text: string,
                         after: string, end: string, rest: string)

  /** An entry's text from its value on. */
  function FromValue(x: Entry): string {
    x.text + (x.after + (x.end + x.rest))
  }

  function FromColon(x: Entry): string {
    ":" + (x.beforeValue + FromValue(x))
  }

  function Literal(key: string): string {
    "\"" + (key + "\"")
  }

  function FromKey(x: Entry): string {
    Literal(x.key) + (x.afterKey + FromColon(x))
  }

  ghost predicate EntryOk(x: Entry) {
    && IsWs(x.before) && IsStringBody(x.key) && |x.key| < IDENT_MAX && IsWs(x.afterKey) && IsWs(x.beforeValue)
    && Shown(x.value, x.text) && IsWs(x.after) && (x.end == "," || x.end == "}")
  }

  /** Where an entry's parts lie, if its key starts at `q`. */
  function LiteralEnd(x: Entry, q: nat): nat {
    q + |x.key| + 2
  }

  function ColonOf(x: Entry, q: nat): nat {
    LiteralEnd(x, q) + |x.afterKey|
  }

  function ValueOf(x: Entry, q: nat): nat {
    ColonOf(x, q) + 1 + |x.beforeValue|
  }

  lemma EntryParts(s: string, q: nat, x: Entry)
    requires AtText(s, q, FromKey(x))
    ensures AtText(s, q, Literal(x.key)) && AtText(s, LiteralEnd(x, q), x.afterKey)
    ensures AtText(s, ColonOf(x, q), FromColon(x)) && AtText(s, ValueOf(x, q), FromValue(x))
  {
    assert |Literal(x.key)| == |x.key| + 2;
    AtSplit(s, q, Literal(x.key), x.afterKey + FromColon(x));
    AtSplit(s, LiteralEnd(x, q), x.afterKey, FromColon(x));
    AtSplit(s, ColonOf(x, q), ":", x.beforeValue + FromValue(x));
    AtSplit(s, ColonOf(x, q) + 1, x.beforeValue, FromValue(x));
  }

  /** Its key up to the colon. */
  lemma EntryKey(s: string, q: nat, x: Entry, lit: nat, colon: nat)
    requires AtText(s, q, FromKey(x)) && EntryOk(x) && lit == LiteralEnd(x, q) && colon == ColonOf(x, q)
    ensures StrTo(s, q, lit, x.key) && WsTo(s, lit, colon, false)
  {
    EntryParts(s, q, x);
    StrRead(s, q, lit, x.key);
    AtChar(s, colon, FromColon(x), 0);
    WsRead(s, lit, colon, x.afterKey, false);
  }

  /** Its value from the colon on. */
  lemma EntryValue(s: string, q: nat, x: Entry, colon: nat, k: nat, m: nat, e: nat)
    requires AtText(s, q, FromKey(x)) && EntryOk(x) && colon == ColonOf(x, q) && k == ValueOf(x, q)
    requires m == k + |x.text| && e == k + StopAfter(x.value, x.text, x.after)
    ensures ValueTo(s, colon, e) && TrimsTo(s, q, e, m)
  {
    EntryParts(s, q, x);
    ColonRead(s, colon, e, x.beforeValue, x.value, x.text, x.after, x.end, x.rest);
    TrimRead(s, q, k, m, e, x.value, x.text, x.after, x.end, x.rest);
  }

  /** One entry is read as one section: from its key's quote to its value's last byte, on its key's line. */
  lemma EntryRead(s: string, q: nat, x: Entry, k: nat, m: nat, e: nat)
    requires AtText(s, q, FromKey(x)) && EntryOk(x) && k == ValueOf(x, q)
    requires m == k + |x.text| && e == k + StopAfter(x.value, x.text, x.after)
    ensures MemberTo(s, q, x.key, m, e)
  {
    var lit, colon := LiteralEnd(x, q), ColonOf(x, q);
    EntryKey(s, q, x, lit, colon);
    EntryValue(s, q, x, colon, k, m, e);
    KeyIsSymbol(x.key);
    MemberFrom(s, q, lit, colon, e, m, x.key);
  }

  predicate IsJunk(t: string) {
    forall i :: 0 <= i < |t| ==> Space(t[i]) || t[i] == ','
  }

  /** The whitespace after a value that its scan has not taken. */
  function Left(x: Entry): string {
    if IsScalar(x.value) then "" else x.after
  }

  /** What is left to read once an entry's value has been read. */
  lemma LeftOver(s: string, k: nat, x: Entry, e: nat)
    requires AtText(s, k, FromValue(x)) && e == k + StopAfter(x.value, x.text, x.after)
    ensures AtText(s, e, Left(x) + (x.end + x.rest))
  {
    AtSplit(s, k, x.text, x.after + (x.end + x.rest));
    if IsScalar(x.value) {
      AtSplit(s, k + |x.text|, x.after, x.end + x.rest);
      NoTail(x.end + x.rest);
    }
  }

  /** The key's quote is where skipping whitespace and commas from `p` leads. */
  lemma HeadRead(s: string, p: nat, q: nat, junk: string, before: string, rest: string)
    requires AtText(s, p, junk + (before + rest)) && IsJunk(junk) && IsWs(before) && rest != "" && rest[0] == '"'
    requires q == p + |junk| + |before|
    ensures WsTo(s, p, q, true) && AtText(s, q, rest)
  {
    Regroup(junk, before, rest);
    AtSplit(s, p, junk + before, rest);
    AtChar(s, q, rest, 0);
    WsRead(s, p, q, junk + before, true);
  }

  /** The entry after `junk` at `p` is read, and this is left. */
  lemma EntryAfterJunk(s: string, p: nat, q: nat, junk: string, x: Entry, m: nat, e: nat)
    requires AtText(s, p, junk + (x.before + FromKey(x))) && IsJunk(junk) && EntryOk(x) && q == p + |junk| + |x.before|
    requires m == ValueOf(x, q) + |x.text| && e == ValueOf(x, q) + StopAfter(x.value, x.text, x.after)
    ensures WsTo(s, p, q, true) && MemberTo(s, q, x.key, m, e) && AtText(s, e, Left(x) + (x.end + x.rest))
  {
    assert FromKey(x)[0] == '"';
    HeadRead(s, p, q, junk, x.before, FromKey(x));
    EntryRead(s, q, x, ValueOf(x, q), m, e);
    EntryParts(s, q, x);
    LeftOver(s, ValueOf(x, q), x, e);
  }

  // ---- The whole document ----

  function Line(s: string, i: nat): nat {
    if i <= |s| then LineAt(s, i) else 0
  }

  /** Where a member's key starts, where its value starts and ends, if the member's own text starts at `i`. */
  function KeyAtByte(m: Mems, i: nat): nat {
    i + |m.before|
  }

  function ValueAtByte(m: Mems, i: nat): nat {
    KeyAtByte(m, i) + |KeyText(m.key, m.afterKey, m.beforeValue)|
  }

  function ValueEndByte(m: Mems, i: nat): nat {
    ValueAtByte(m, i) + |ValueText(m.value)|
  }

  /** The top-level members of an object whose inside starts at byte `i`, in order. */
  function Expected(s: string, m: Mems, i: nat): seq<Section> {
    [Section(Some(m.key), KeyAtByte(m, i), ValueEndByte(m, i), Line(s, KeyAtByte(m, i)))]
    + if m.LastMem? then [] else Expected(s, m.rest, ValueEndByte(m, i) + |m.after| + 1)
  }

  predicate KeysFit(m: Mems) {
    |m.key| < IDENT_MAX && (m.MoreMems? ==> KeysFit(m.rest))
  }

  /** Reading one member puts it in front of what is read after it. */
  lemma StepFound(s: string, p: nat, q: nat, key: string, m: nat, e: nat, secs: seq<Section>)
    requires WsTo(s, p, q, true) && MemberTo(s, q, key, m, e) && Finds(s, e, secs)
    ensures Finds(s, p, [Section(Some(key), q, m, Line(s, q))] + secs)
  {
    assert Look(0);
    assert FindNext(s, p, LineAt(s, p)) == MemberOf(s, At(q, LineAt(s, q)));
  }

  /** After the last member: whitespace, the closing brace, whitespace, and nothing is found. */
  lemma EndFound(s: string, p: nat, junk: string, tail: string)
    requires AtText(s, p, junk + ("}" + tail)) && IsWs(junk) && IsWs(tail) && p + |junk| + 1 + |tail| == |s|
    ensures Finds(s, p, [])
  {
    var q := p + |junk|;
    AtSplit(s, p, junk, "}" + tail);
    AtSplit(s, q, "}", tail);
    AtChar(s, q, "}", 0);
    WsRead(s, p, q, junk, true);
    WsRead(s, q + 1, |s|, tail, false);
    LineNext(s, q);
    assert Look(0);
    assert FindNext(s, p, LineAt(s, p)) == TailOf(s, q + 1, LineAt(s, q));
  }

  /** The first member of a list, and what follows it, as an entry. */
  function EntryOf(m: Mems, tail: string): Entry {
    Entry(m.before, m.key, m.afterKey, m.beforeValue, m.value, ValueText(m.value), m.after,
          if m.LastMem? then "}" else ",", if m.LastMem? then tail else MemsText(m.rest) + ("}" + tail))
  }

  /** The text of a member list in front of its closing brace is the text of its first entry. */
  lemma MemsAreEntry(m: Mems, tail: string)
    ensures MemsText(m) + ("}" + tail) == m.before + FromKey(EntryOf(m, tail))
    ensures |KeyText(m.key, m.afterKey, m.beforeValue)| == |m.key| + 3 + |m.afterKey| + |m.beforeValue|
  {
    var x := EntryOf(m, tail);
    var key, t := KeyText(m.key, m.afterKey, m.beforeValue), ValueText(m.value);
    KeyTextThen(m.key, m.afterKey, m.beforeValue, FromValue(x));
    if m.LastMem? {
      Grouped4(m.before, key, t, m.after, "}" + tail);
    } else {
      Grouped4(m.before, key, t, m.after + ("," + MemsText(m.rest)), "}" + tail);
      Regroup(m.after, "," + MemsText(m.rest), "}" + tail);
      Regroup(",", MemsText(m.rest), "}" + tail);
    }
  }

  lemma Grouped4(a: string, b: string, c: string, d: string, e: string)
    ensures (a + (b + (c + d))) + e == a + (b + (c + (d + e)))
  {
    Regroup(a, b + (c + d), e);
    Regroup(b, c + d, e);
    Regroup(c, d, e);
  }

  lemma KeyTextThen(key: string, afterKey: string, beforeValue: string, rest: string)
    ensures KeyText(key, afterKey, beforeValue) + rest == Literal(key) + (afterKey + (":" + (beforeValue + rest)))
  {
    var colon := ":" + beforeValue;
    Regroup("\"", key + ("\"" + (afterKey + colon)), rest);
    Regroup(key, "\"" + (afterKey + colon), rest);
    Regroup("\"", afterKey + colon, rest);
    Regroup(afterKey, colon, rest);
    Regroup(":", beforeValue, rest);
    var after := afterKey + (":" + (beforeValue + rest));
    Regroup("\"", key + "\"", after);
    Regroup(key, "\"", after);
  }

  lemma EntryOfOk(m: Mems, tail: string)
    requires MemsOk(m) && KeysFit(m)
    ensures EntryOk(EntryOf(m, tail))
  {}

  /** `finds` holds wherever the code's reading of members, one after another, says it should. */
  ghost predicate StepRule(s: string, finds: (nat, seq<Section>) -> bool, p: nat, q: nat, key: string, m: nat, e: nat, secs: seq<Section>) {
    WsTo(s, p, q, true) && MemberTo(s, q, key, m, e) && finds(e, secs) ==> finds(p, [Section(Some(key), q, m, Line(s, q))] + secs)
  }

  ghost predicate EndRule(s: string, finds: (nat, seq<Section>) -> bool, p: nat, junk: string, tail: string) {
    AtText(s, p, junk + ("}" + tail)) && IsWs(junk) && IsWs(tail) && p + |junk| + 1 + |tail| == |s| ==> finds(p, [])
  }

  ghost predicate FindRules(s: string, finds: (nat, seq<Section>) -> bool) {
    && (forall p: nat, q: nat, key: string, m: nat, e: nat, secs: seq<Section> {:trigger StepRule(s, finds, p, q, key, m, e, secs)} ::
          StepRule(s, finds, p, q, key, m, e, secs))
    && (forall p: nat, junk: string, tail: string {:trigger EndRule(s, finds, p, junk, tail)} :: EndRule(s, finds, p, junk, tail))
  }

  lemma FindsRules(s: string)
    ensures FindRules(s, (p: nat, secs: seq<Section>) => Finds(s, p, secs))
  {
    var f := (p: nat, secs: seq<Section>) => Finds(s, p, secs);
    forall p: nat, q: nat, key: string, m: nat, e: nat, secs: seq<Section> {:trigger StepRule(s, f, p, q, key, m, e, secs)} | true
      ensures StepRule(s, f, p, q, key, m, e, secs)
    {
      if WsTo(s, p, q, true) && MemberTo(s, q, key, m, e) && Finds(s, e, secs) {
        StepFound(s, p, q, key, m, e, secs);
      }
    }
    forall p: nat, junk: string, tail: string {:trigger EndRule(s, f, p, junk, tail)} | true
      ensures EndRule(s, f, p, junk, tail)
    {
      if AtText(s, p, junk + ("}" + tail)) && IsWs(junk) && IsWs(tail) && p + |junk| + 1 + |tail| == |s| {
        EndFound(s, p, junk, tail);
      }
    }
  }

  /** Where the scan stands after the first member of a list. */
  lemma FirstMember(s: string, p: nat, junk: string, m: Mems, tail: string, i: nat) returns (e: nat, left: string)
    requires AtText(s, p, junk + (MemsText(m) + ("}" + tail))) && i == p + |junk| && IsJunk(junk) && MemsOk(m) && KeysFit(m)
    ensures WsTo(s, p, KeyAtByte(m, i), true) && MemberTo(s, KeyAtByte(m, i), m.key, ValueEndByte(m, i), e)
    ensures e + |left| == ValueEndByte(m, i) + |m.after| && IsWs(left)
    ensures AtText(s, e, left + (if m.LastMem? then "}" + tail else "," + (MemsText(m.rest) + ("}" + tail))))
  {
    var x := EntryOf(m, tail);
    MemsAreEntry(m, tail);
    EntryOfOk(m, tail);
    e := ValueOf(x, KeyAtByte(m, i)) + StopAfter(x.value, x.text, x.after);
    EntryAfterJunk(s, p, KeyAtByte(m, i), junk, x, ValueEndByte(m, i), e);
    left := Left(x);
  }

  /** From wherever the scan stands before a member, exactly the members from there on are found. */
  lemma {:induction false} MembersScan(s: string, finds: (nat, seq<Section>) -> bool, p: nat, junk: string, m: Mems, tail: string, i: nat, n: nat)
    requires FindRules(s, finds) && n == |MemsText(m)|
    requires AtText(s, p, junk + (MemsText(m) + ("}" + tail))) && i == p + |junk| && i + n + 1 + |tail| == |s|
    requires IsJunk(junk) && MemsOk(m) && KeysFit(m) && IsWs(tail)
    ensures finds(p, Expected(s, m, i))
    decreases m
  {
    var e, left := FirstMember(s, p, junk, m, tail, i);
    MemsLength(m, i, n);
    if m.LastMem? {
      assert EndRule(s, finds, e, left, tail);
      assert StepRule(s, finds, p, KeyAtByte(m, i), m.key, ValueEndByte(m, i), e, []);
    } else {
      var next := ValueEndByte(m, i) + |m.after| + 1;
      Regroup(left, ",", MemsText(m.rest) + ("}" + tail));
      MembersScan(s, finds, e, left + ",", m.rest, tail, next, |MemsText(m.rest)|);
      assert StepRule(s, finds, p, KeyAtByte(m, i), m.key, ValueEndByte(m, i), e, Expected(s, m.rest, next));
    }
  }

  lemma MemsLength(m: Mems, i: nat, n: nat)
    requires n == |MemsText(m)|
    ensures i + n == ValueEndByte(m, i) + |m.after| + if m.LastMem? then 0 else 1 + |MemsText(m.rest)|
  {}

  /**
   For every document whose root is a non-empty object and whose keys fit, the sections are its top-level
   members in order: each from its key's opening quote to its value's last byte, with the line that quote is on.
   */
  lemma DocumentSections(d: Doc)
    requires DocOk(d) && KeysFit(d.mems)
    ensures ObjectSections(DocText(d)) == Some(Expected(DocText(d), d.mems, |d.before| + 1))
  {
    var s := DocText(d);
    var b, p := |d.before|, |d.before| + 1;
    DocParts(d, s, b, p);
    FindsRules(s);
    MembersScan(s, (q: nat, secs: seq<Section>) => Finds(s, q, secs), p, "", d.mems, d.after, p, |MemsText(d.mems)|);
    ObjectFound(s, b, Expected(s, d.mems, p));
  }

  lemma DocParts(d: Doc, s: string, b: nat, p: nat)
    requires DocOk(d) && s == DocText(d) && b == |d.before| && p == b + 1
    ensures b < |s| && s[b] == '{' && WsTo(s, 0, b, false)
    ensures AtText(s, p, "" + (MemsText(d.mems) + ("}" + d.after))) && p + |MemsText(d.mems)| + 1 + |d.after| == |s|
  {
    var inside := MemsText(d.mems) + ("}" + d.after);
    AtAll(s);
    AtSplit(s, 0, d.before, "{" + inside);
    AtSplit(s, b, "{", inside);
    AtChar(s, b, "{", 0);
    WsRead(s, 0, b, d.before, false);
    NoTail(inside);
  }

  lemma ObjectFound(s: string, b: nat, secs: seq<Section>)
    requires b < |s| && s[b] == '{' && WsTo(s, 0, b, false) && Finds(s, b + 1, secs)
    ensures ObjectSections(s) == Some(secs)
  {
    assert Look(0);
    LineNext(s, b);
    assert LineAt(s, 0) == 1;
  }

  lemma ObjectInText(s: string)
    requires ObjectSections(s).Some?
    ensures InText(s, ObjectSections(s).value)
  {
    var w := WsEnd(s, 0, 1, false);
    MembersInText(s, w.pos + 1, w.line);
  }

  /**
   `json_object_chunks` on such a document: on success the list holds exactly the pieces of its members, and if every
   piece can be filed only memory can run out.
   */
  method ChunkDocument(s: string, occ: StrMap, path: string, ghost d: Doc)
    returns (st: Status, handled: bool, list: seq<Item>, ghost idents: seq<string>)
    requires Tracked(occ, []) && DocOk(d) && KeysFit(d.mems) && s == DocText(d)
    modifies occ.Repr()
    ensures InText(s, Expected(s, d.mems, |d.before| + 1))
    ensures st == Ok ==> handled && AllFiled(list, path, idents, 8) && PiecesOf(list) == AllPieces(s, Expected(s, d.mems, |d.before| + 1))
    ensures CanFile(AllPieces(s, Expected(s, d.mems, |d.before| + 1)), path, KIND_KEY) ==> st == Ok || st == OutOfMemory
  {
    DocumentSections(d);
    ObjectInText(s);
    st, handled, list, idents := JsonObjectChunks(s, occ, path);
  }
}
