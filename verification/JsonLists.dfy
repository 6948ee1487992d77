/**
 The list handlers: graph nodes, edges, hubs and trace hops, and search hits. Each reply is well-formed JSON
 holding a front of the items found; a graph reply says so when something is missing, and hits are never dropped.
 */
module JsonLists {
  import opened Common
  import opened ChunkKeys
  import opened JsonScan
  import opened JsonTheorems
  import opened JsonEscape
  import opened JsonReplies

  /** Like `Look`, for predicates that open apart from the others. */
  predicate Peek(n: nat) {
    true
  }

  // ---- Rows ----

  /** The confidence and score stand as `printf` prints them. */
  datatype Row =
    | NodeRow(id: nat, repo: string, kind: string, name: string, qname: string, path: string, startLine: nat, endLine: nat)
    | EdgeRow(src: nat, dst: nat, kind: string, resolution: string, confidence: string, line: nat,
              srcName: string, dstName: string, srcPath: string, dstPath: string, srcRepo: string, dstRepo: string)
    | HitRow(id: nat, score: string, repo: string, path: string, symbol: string, kind: string, startLine: nat, endLine: nat, snippet: string)

  const ESC_REPO: nat := 256
  const ESC_PATH: nat := 512
  const ESC_SYMBOL: nat := 256
  const ESC_KIND: nat := 64
  const SNIPPET_MAX: nat := 400
  const ESC_SNIPPET: nat := SNIPPET_MAX * 2
  const HIT_JSON_MAX: nat := ESC_REPO + ESC_PATH + ESC_SYMBOL + ESC_KIND + ESC_SNIPPET + 256

  function Num(key: string, n: nat): Field {
    Field(key, Lit(Dec(n)))
  }

  function Text(key: string, s: string, cap: nat): Field {
    Field(key, Str(EscapeFit(CutAtZero(s), 0, cap)))
  }

  /** What each format prints, field by field. */
  function RowFields(r: Row): seq<Field> {
    match r
    case NodeRow(id, repo, kind, name, qname, path, startLine, endLine) =>
      [Num("id", id), Text("repo", repo, 256), Text("kind", kind, 64), Text("name", name, 512), Text("qname", qname, 1024),
       Text("path", path, 1024), Num("start_line", startLine), Num("end_line", endLine)]
    case EdgeRow(src, dst, kind, resolution, confidence, line, srcName, dstName, srcPath, dstPath, srcRepo, dstRepo) =>
      [Num("src", src), Num("dst", dst), Text("kind", kind, 64), Text("resolution", resolution, 64), Field("confidence", Lit(confidence)),
       Num("line", line), Text("src_name", srcName, 512), Text("dst_name", dstName, 512), Text("src_path", srcPath, 1024),
       Text("dst_path", dstPath, 1024), Text("src_repo", srcRepo, 512), Text("dst_repo", dstRepo, 512)]
    case HitRow(id, score, repo, path, symbol, kind, startLine, endLine, snippet) =>
      [Num("id", id), Field("score", Lit(score)), Text("repo", repo, ESC_REPO), Text("path", path, ESC_PATH), Text("symbol", symbol, ESC_SYMBOL),
       Text("kind", kind, ESC_KIND), Num("start_line", startLine), Num("end_line", endLine), Text("snippet", snippet, ESC_SNIPPET)]
  }

  /** `printf` printed the row's fraction as a number: it was finite. */
  predicate Printed(r: Row) {
    match r
    case NodeRow(_, _, _, _, _, _, _, _) => true
    case EdgeRow(_, _, _, _, confidence, _, _, _, _, _, _, _) => IsNumber(confidence)
    case HitRow(_, score, _, _, _, _, _, _, _) => IsNumber(score)
  }

  /** A key that needs no escape: a fact to carry, not to look into. */
  ghost predicate SimpleKey(key: string) {
    forall n {:trigger Look(n)} :: Look(n) ==> forall i :: 0 <= i < |key| ==> key[i] != '"' && key[i] != '\\' && key[i] >= ' '
  }

  lemma {:induction false} SimpleDecodes(key: string)
    requires SimpleKey(key)
    ensures Decode(key) == Some(key)
  {
    assert Look(0);
    if key != "" {
      SimpleDecodes(key[1..]);
      assert key == [key[0]] + key[1..];
    }
  }

  lemma NodeKeys()
    ensures SimpleKey("id") && SimpleKey("repo") && SimpleKey("kind") && SimpleKey("name") && SimpleKey("qname") && SimpleKey("path")
    ensures SimpleKey("start_line") && SimpleKey("end_line")
  {}

  lemma EdgeKeys()
    ensures SimpleKey("src") && SimpleKey("dst") && SimpleKey("kind") && SimpleKey("resolution") && SimpleKey("confidence") && SimpleKey("line")
  {}

  lemma EdgeEndKeys()
    ensures SimpleKey("src_name") && SimpleKey("dst_name") && SimpleKey("src_path") && SimpleKey("dst_path") && SimpleKey("src_repo")
    ensures SimpleKey("dst_repo")
  {}

  lemma HitKeys()
    ensures SimpleKey("id") && SimpleKey("score") && SimpleKey("repo") && SimpleKey("path") && SimpleKey("symbol") && SimpleKey("kind")
    ensures SimpleKey("start_line") && SimpleKey("end_line") && SimpleKey("snippet")
  {}

  lemma NumIsFine(key: string, n: nat)
    requires SimpleKey(key)
    ensures FieldFine(Num(key, n))
  {
    SimpleDecodes(key);
    DecIsNumber(n);
  }

  lemma TextIsFine(key: string, s: string, cap: nat)
    requires SimpleKey(key)
    ensures FieldFine(Text(key, s, cap))
  {
    SimpleDecodes(key);
    EscapeReadsBack(CutAtZero(s), 0, cap);
  }

  lemma FractionIsFine(key: string, t: string)
    requires SimpleKey(key) && IsNumber(t)
    ensures FieldFine(Field(key, Lit(t)))
  {
    SimpleDecodes(key);
  }

  lemma FineJoin(a: seq<Field>, b: seq<Field>)
    requires FieldsFine(a) && FieldsFine(b)
    ensures FieldsFine(a + b)
  {}

  lemma ThreeFine(a: Field, b: Field, c: Field)
    requires FieldFine(a) && FieldFine(b) && FieldFine(c)
    ensures FieldsFine([a, b, c])
  {}

  lemma SixFine(a: Field, b: Field, c: Field, d: Field, e: Field, f: Field)
    requires FieldFine(a) && FieldFine(b) && FieldFine(c) && FieldFine(d) && FieldFine(e) && FieldFine(f)
    ensures FieldsFine([a, b, c, d, e, f])
  {
    ThreeFine(a, b, c);
    ThreeFine(d, e, f);
    FineJoin([a, b, c], [d, e, f]);
    assert [a, b, c, d, e, f] == [a, b, c] + [d, e, f];
  }

  lemma EightFine(a: Field, b: Field, c: Field, d: Field, e: Field, f: Field, g: Field, h: Field)
    requires FieldFine(a) && FieldFine(b) && FieldFine(c) && FieldFine(d) && FieldFine(e) && FieldFine(f) && FieldFine(g) && FieldFine(h)
    ensures FieldsFine([a, b, c, d, e, f, g, h])
  {
    SixFine(a, b, c, d, e, f);
    ThreeFine(g, h, h);
    FineJoin([a, b, c, d, e, f], [g, h]);
    assert [a, b, c, d, e, f, g, h] == [a, b, c, d, e, f] + [g, h];
  }

  lemma NineFine(a: Field, b: Field, c: Field, d: Field, e: Field, f: Field, g: Field, h: Field, i: Field)
    requires FieldFine(a) && FieldFine(b) && FieldFine(c) && FieldFine(d) && FieldFine(e) && FieldFine(f)
    requires FieldFine(g) && FieldFine(h) && FieldFine(i)
    ensures FieldsFine([a, b, c, d, e, f, g, h, i])
  {
    SixFine(a, b, c, d, e, f);
    ThreeFine(g, h, i);
    FineJoin([a, b, c, d, e, f], [g, h, i]);
    assert [a, b, c, d, e, f, g, h, i] == [a, b, c, d, e, f] + [g, h, i];
  }

  lemma TwelveFine(a: Field, b: Field, c: Field, d: Field, e: Field, f: Field, g: Field, h: Field, i: Field, j: Field, k: Field, l: Field)
    requires FieldFine(a) && FieldFine(b) && FieldFine(c) && FieldFine(d) && FieldFine(e) && FieldFine(f)
    requires FieldFine(g) && FieldFine(h) && FieldFine(i) && FieldFine(j) && FieldFine(k) && FieldFine(l)
    ensures FieldsFine([a, b, c, d, e, f, g, h, i, j, k, l])
  {
    SixFine(a, b, c, d, e, f);
    SixFine(g, h, i, j, k, l);
    FineJoin([a, b, c, d, e, f], [g, h, i, j, k, l]);
    assert [a, b, c, d, e, f, g, h, i, j, k, l] == [a, b, c, d, e, f] + [g, h, i, j, k, l];
  }

  lemma NodeIsFine(r: Row)
    requires r.NodeRow?
    ensures FieldsFine(RowFields(r))
  {
    NodeKeys();
    NumIsFine("id", r.id);
    TextIsFine("repo", r.repo, 256);
    TextIsFine("kind", r.kind, 64);
    TextIsFine("name", r.name, 512);
    TextIsFine("qname", r.qname, 1024);
    TextIsFine("path", r.path, 1024);
    NumIsFine("start_line", r.startLine);
    NumIsFine("end_line", r.endLine);
    EightFine(Num("id", r.id), Text("repo", r.repo, 256), Text("kind", r.kind, 64), Text("name", r.name, 512), Text("qname", r.qname, 1024),
              Text("path", r.path, 1024), Num("start_line", r.startLine), Num("end_line", r.endLine));
  }

  lemma EdgeIsFine(r: Row)
    requires r.EdgeRow? && Printed(r)
    ensures FieldsFine(RowFields(r))
  {
    EdgeKeys();
    EdgeEndKeys();
    NumIsFine("src", r.src);
    NumIsFine("dst", r.dst);
    TextIsFine("kind", r.kind, 64);
    TextIsFine("resolution", r.resolution, 64);
    FractionIsFine("confidence", r.confidence);
    NumIsFine("line", r.line);
    TextIsFine("src_name", r.srcName, 512);
    TextIsFine("dst_name", r.dstName, 512);
    TextIsFine("src_path", r.srcPath, 1024);
    TextIsFine("dst_path", r.dstPath, 1024);
    TextIsFine("src_repo", r.srcRepo, 512);
    TextIsFine("dst_repo", r.dstRepo, 512);
    TwelveFine(Num("src", r.src), Num("dst", r.dst), Text("kind", r.kind, 64), Text("resolution", r.resolution, 64),
               Field("confidence", Lit(r.confidence)), Num("line", r.line), Text("src_name", r.srcName, 512), Text("dst_name", r.dstName, 512),
               Text("src_path", r.srcPath, 1024), Text("dst_path", r.dstPath, 1024), Text("src_repo", r.srcRepo, 512),
               Text("dst_repo", r.dstRepo, 512));
  }

  lemma HitIsFine(r: Row)
    requires r.HitRow? && Printed(r)
    ensures FieldsFine(RowFields(r))
  {
    HitKeys();
    NumIsFine("id", r.id);
    FractionIsFine("score", r.score);
    TextIsFine("repo", r.repo, ESC_REPO);
    TextIsFine("path", r.path, ESC_PATH);
    TextIsFine("symbol", r.symbol, ESC_SYMBOL);
    TextIsFine("kind", r.kind, ESC_KIND);
    NumIsFine("start_line", r.startLine);
    NumIsFine("end_line", r.endLine);
    TextIsFine("snippet", r.snippet, ESC_SNIPPET);
    NineFine(Num("id", r.id), Field("score", Lit(r.score)), Text("repo", r.repo, ESC_REPO), Text("path", r.path, ESC_PATH),
             Text("symbol", r.symbol, ESC_SYMBOL), Text("kind", r.kind, ESC_KIND), Num("start_line", r.startLine), Num("end_line", r.endLine),
             Text("snippet", r.snippet, ESC_SNIPPET));
  }

  lemma RowIsFine(r: Row)
    requires Printed(r)
    ensures FieldsFine(RowFields(r))
  {
    if r.NodeRow? {
      NodeIsFine(r);
    } else if r.EdgeRow? {
      EdgeIsFine(r);
    } else {
      HitIsFine(r);
    }
  }

  // ---- What stands under which name ----

  /** A member that is a decimal number. */
  ghost predicate NumberUnder(f: Field, key: string, n: nat) {
    forall m {:trigger Peek(m)} :: Peek(m) ==>
      f.key == key && exists t: string :: f.value == Lit(t) && t != "" && AllDigits(t) && Undec(t) == n
  }

  /** A member that reads back as a front of the text, up to its first zero: all of it unless one more byte is too much for the buffer. */
  ghost predicate TextUnder(f: Field, key: string, s: string, cap: nat) {
    forall m {:trigger Peek(m)} :: Peek(m) ==>
      f.key == key && f.value.Str? && exists n: nat {:trigger Reading(f.value.body, s, n)} :: Reading(f.value.body, s, n) && Uncut(f.value.body, s, n, cap)
  }

  ghost predicate Reading(b: string, s: string, n: nat) {
    n <= |CutAtZero(s)| && Decode(b) == Some(CutAtZero(s)[..n])
  }

  /** The buffer held what was written, and the text stops where one more byte would have been too much. */
  ghost predicate Uncut(b: string, s: string, n: nat, cap: nat)
    requires n <= |CutAtZero(s)|
  {
    |b| < cap && (n < |CutAtZero(s)| ==> |b| + |Esc(CutAtZero(s)[n])| >= cap)
  }

  lemma NumIsUnder(fs: seq<Field>, i: nat, key: string, n: nat)
    requires i < |fs| && fs[i] == Num(key, n)
    ensures NumberUnder(fs[i], key, n)
  {
    UndecDec(n);
    DecDigits(n);
  }

  lemma TextIsUnder(fs: seq<Field>, i: nat, key: string, s: string, cap: nat)
    requires i < |fs| && fs[i] == Text(key, s, cap) && cap > 0
    ensures TextUnder(fs[i], key, s, cap)
  {
    var c := CutAtZero(s);
    var b, n := EscapeFit(c, 0, cap), FitCount(c, 0, cap);
    EscapeReadsBack(c, 0, cap);
    FitIsShort(c, 0, cap);
    if n < |c| {
      CutIsForced(c, 0, cap);
    }
    assert Reading(b, s, n);
  }

  /** A node's members, by name. */
  lemma NodeMembers(r: Row, fs: seq<Field>)
    requires r.NodeRow? && fs == RowFields(r)
    ensures |fs| == 8
    ensures NumberUnder(fs[0], "id", r.id)
    ensures TextUnder(fs[1], "repo", r.repo, 256) && TextUnder(fs[2], "kind", r.kind, 64)
    ensures TextUnder(fs[3], "name", r.name, 512) && TextUnder(fs[4], "qname", r.qname, 1024) && TextUnder(fs[5], "path", r.path, 1024)
    ensures NumberUnder(fs[6], "start_line", r.startLine) && NumberUnder(fs[7], "end_line", r.endLine)
  {
    NumIsUnder(fs, 0, "id", r.id);
    TextIsUnder(fs, 1, "repo", r.repo, 256);
    TextIsUnder(fs, 2, "kind", r.kind, 64);
    TextIsUnder(fs, 3, "name", r.name, 512);
    TextIsUnder(fs, 4, "qname", r.qname, 1024);
    TextIsUnder(fs, 5, "path", r.path, 1024);
    NumIsUnder(fs, 6, "start_line", r.startLine);
    NumIsUnder(fs, 7, "end_line", r.endLine);
  }

  /** An edge's numbers, by name. */
  lemma EdgeNumbers(r: Row, fs: seq<Field>)
    requires r.EdgeRow? && fs == RowFields(r)
    ensures |fs| == 12
    ensures NumberUnder(fs[0], "src", r.src) && NumberUnder(fs[1], "dst", r.dst)
    ensures fs[4] == Field("confidence", Lit(r.confidence)) && NumberUnder(fs[5], "line", r.line)
  {
    NumIsUnder(fs, 0, "src", r.src);
    NumIsUnder(fs, 1, "dst", r.dst);
    NumIsUnder(fs, 5, "line", r.line);
  }

  lemma EdgeKindsAt(r: Row)
    requires r.EdgeRow?
    ensures |RowFields(r)| == 12 && RowFields(r)[2] == Text("kind", r.kind, 64) && RowFields(r)[3] == Text("resolution", r.resolution, 64)
  {}

  /** Its kind and how it was resolved. */
  lemma EdgeKinds(r: Row, fs: seq<Field>)
    requires r.EdgeRow? && fs == RowFields(r) && |fs| == 12
    ensures TextUnder(fs[2], "kind", r.kind, 64) && TextUnder(fs[3], "resolution", r.resolution, 64)
  {
    EdgeKindsAt(r);
    TextIsUnder(fs, 2, "kind", r.kind, 64);
    TextIsUnder(fs, 3, "resolution", r.resolution, 64);
  }

  /** The texts that name its two ends. */
  lemma EdgeEnds(r: Row, fs: seq<Field>)
    requires r.EdgeRow? && fs == RowFields(r) && |fs| == 12
    ensures TextUnder(fs[6], "src_name", r.srcName, 512) && TextUnder(fs[7], "dst_name", r.dstName, 512)
    ensures TextUnder(fs[8], "src_path", r.srcPath, 1024) && TextUnder(fs[9], "dst_path", r.dstPath, 1024)
    ensures TextUnder(fs[10], "src_repo", r.srcRepo, 512) && TextUnder(fs[11], "dst_repo", r.dstRepo, 512)
  {
    TextIsUnder(fs, 6, "src_name", r.srcName, 512);
    TextIsUnder(fs, 7, "dst_name", r.dstName, 512);
    TextIsUnder(fs, 8, "src_path", r.srcPath, 1024);
    TextIsUnder(fs, 9, "dst_path", r.dstPath, 1024);
    TextIsUnder(fs, 10, "src_repo", r.srcRepo, 512);
    TextIsUnder(fs, 11, "dst_repo", r.dstRepo, 512);
  }

  /** A hit's members, by name. */
  lemma HitMembers(r: Row, fs: seq<Field>)
    requires r.HitRow? && fs == RowFields(r)
    ensures |fs| == 9
    ensures NumberUnder(fs[0], "id", r.id) && fs[1] == Field("score", Lit(r.score))
    ensures TextUnder(fs[2], "repo", r.repo, 256) && TextUnder(fs[3], "path", r.path, 512)
    ensures TextUnder(fs[4], "symbol", r.symbol, 256) && TextUnder(fs[5], "kind", r.kind, 64)
    ensures NumberUnder(fs[6], "start_line", r.startLine) && NumberUnder(fs[7], "end_line", r.endLine)
    ensures TextUnder(fs[8], "snippet", r.snippet, 800)
  {
    NumIsUnder(fs, 0, "id", r.id);
    TextIsUnder(fs, 2, "repo", r.repo, 256);
    TextIsUnder(fs, 3, "path", r.path, 512);
    TextIsUnder(fs, 4, "symbol", r.symbol, 256);
    TextIsUnder(fs, 5, "kind", r.kind, 64);
    NumIsUnder(fs, 6, "start_line", r.startLine);
    NumIsUnder(fs, 7, "end_line", r.endLine);
    TextIsUnder(fs, 8, "snippet", r.snippet, 800);
  }

  // ---- Formatting one row ----

  /** One string field, escaped in a buffer of its own. */
  method FormatText(key: string, s: string, cap: nat) returns (f: Field)
    requires cap > 0
    ensures f == Text(key, s, cap)
  {
    var buffer := new char[cap];
    var j := Escape(s, buffer);
    f := Field(key, Str(buffer[..j]));
  }

  /** `write_gnode_json`, `write_gedge_json` and `write_hit_json`, up to the append. */
  method FormatRow(r: Row) returns (fs: seq<Field>)
    ensures fs == RowFields(r)
  {
    match r
    case NodeRow(id, repo, kind, name, qname, path, startLine, endLine) =>
      var escRepo := FormatText("repo", repo, 256);
      var escKind := FormatText("kind", kind, 64);
      var escName := FormatText("name", name, 512);
      var escQname := FormatText("qname", qname, 1024);
      var escPath := FormatText("path", path, 1024);
      fs := [Num("id", id), escRepo, escKind, escName, escQname, escPath, Num("start_line", startLine), Num("end_line", endLine)];
    case EdgeRow(src, dst, kind, resolution, confidence, line, srcName, dstName, srcPath, dstPath, srcRepo, dstRepo) =>
      var escKind := FormatText("kind", kind, 64);
      var escRes := FormatText("resolution", resolution, 64);
      var escSrcName := FormatText("src_name", srcName, 512);
      var escDstName := FormatText("dst_name", dstName, 512);
      var escSrcPath := FormatText("src_path", srcPath, 1024);
      var escDstPath := FormatText("dst_path", dstPath, 1024);
      var escSrcRepo := FormatText("src_repo", srcRepo, 512);
      var escDstRepo := FormatText("dst_repo", dstRepo, 512);
      fs := [Num("src", src), Num("dst", dst), escKind, escRes, Field("confidence", Lit(confidence)), Num("line", line),
             escSrcName, escDstName, escSrcPath, escDstPath, escSrcRepo, escDstRepo];
    case HitRow(id, score, repo, path, symbol, kind, startLine, endLine, snippet) =>
      var escRepo := FormatText("repo", repo, ESC_REPO);
      var escPath := FormatText("path", path, ESC_PATH);
      var escSymbol := FormatText("symbol", symbol, ESC_SYMBOL);
      var escKind := FormatText("kind", kind, ESC_KIND);
      var escSnippet := FormatText("snippet", snippet, ESC_SNIPPET);
      fs := [Num("id", id), Field("score", Lit(score)), escRepo, escPath, escSymbol, escKind, Num("start_line", startLine),
             Num("end_line", endLine), escSnippet];
  }

  // ---- Lists ----

  /** How many items fit: each with a comma before it but the first, and a byte to spare. */
  function Fitting(items: seq<seq<Field>>, i: nat, off: nat, cap: nat): (n: nat)
    requires i <= |items|
    ensures i + n <= |items|
    decreases |items| - i
  {
    if i == |items| then 0
    else
      var end := off + (if i > 0 then 1 else 0) + |ObjectText(items[i])|;
      if end >= cap then 0 else 1 + Fitting(items, i + 1, end, cap)
  }

  function Values(items: seq<seq<Field>>): (vs: seq<Value>)
    ensures |vs| == |items| && forall i :: 0 <= i < |items| ==> vs[i] == Object(items[i])
  {
    seq(|items|, i requires 0 <= i < |items| => Object(items[i]))
  }

  lemma ValuesNext(items: seq<seq<Field>>, i: nat)
    requires i < |items|
    ensures ItemsJoined(Values(items[..i + 1])) ==
      ItemsJoined(Values(items[..i])) + Separated(i, ObjectText(items[i]))
  {
    LastStep(items, i);
    assert Values(items[..i + 1]) == Values(items[..i]) + [Object(items[i])];
    JoinedNext(Values(items[..i]), Object(items[i]));
    ObjectIsText(items[i]);
    NoTail(ObjectText(items[i]));
    assert i == 0 ==> Values(items[..0]) == [];
  }

  /** An item with the comma that separates it. */
  function Separated(i: nat, text: string): (r: string)
    ensures |r| == (if i > 0 then 1 else 0) + |text|
  {
    if i > 0 then "," + text else text
  }

  /** `list_item_begin`, the item, and `list_item_rollback` when it does not fit. */
  method PutItem(resp: array<char>, cap: nat, off: nat, i: nat, text: string) returns (ok: bool, off': nat)
    requires cap <= resp.Length && off < cap && text != ""
    modifies resp
    ensures ok <==> off + |Separated(i, text)| < cap
    ensures off' == (if ok then off + |Separated(i, text)| else off) && off' < cap
    ensures ok ==> resp[..off'] == old(resp[..off]) + Separated(i, text)
    ensures !ok ==> resp[..off'] == old(resp[..off])
  {
    ghost var before := resp[..off];
    var mark := off;
    off' := off;
    if i > 0 {
      var _, o := Append(resp, cap, off', ",");
      off' := o;
    }
    ok, off' := Append(resp, cap, off', text);
    if !ok {
      off' := mark;
      resp[off'] := '\0';
      assert resp[..off'] == before;
    } else if i > 0 {
      Regroup(before, ",", text);
    } else {
      NoTail(before);
      NoTail(text);
    }
  }

  /** Where the list stands: `w` items written, after the head. */
  ghost predicate Listed(written: string, head: string, items: seq<seq<Field>>, w: nat, off: nat, cap: nat) {
    forall n {:trigger Look(n)} :: Look(n) ==> ListedHere(written, head, items, w, off, cap)
  }

  ghost predicate ListedHere(written: string, head: string, items: seq<seq<Field>>, w: nat, off: nat, cap: nat) {
    && w <= |items| && |written| == off && written == head + ItemsJoined(Values(items[..w]))
    && Fitting(items, 0, |head|, cap) == w + Fitting(items, w, off, cap)
  }

  /** The text of an item: a fact to carry, not to look into. */
  ghost predicate IsItem(text: string, fs: seq<Field>) {
    forall n {:trigger Peek(n)} :: Peek(n) ==> text == ObjectText(fs)
  }

  /** No further item fits. */
  ghost predicate Full(head: string, items: seq<seq<Field>>, w: nat, cap: nat) {
    forall n {:trigger Look(n)} :: Look(n) ==> w == Fitting(items, 0, |head|, cap)
  }

  lemma ListedStart(head: string, items: seq<seq<Field>>, cap: nat)
    ensures Listed(head, head, items, 0, |head|, cap)
  {
    assert Values(items[..0]) == [];
    NoTail(head);
  }

  lemma FittingStep(items: seq<seq<Field>>, w: nat, off: nat, cap: nat, end: nat)
    requires w < |items| && end == off + (if w > 0 then 1 else 0) + |ObjectText(items[w])|
    ensures Fitting(items, w, off, cap) == if end >= cap then 0 else 1 + Fitting(items, w + 1, end, cap)
  {}

  lemma ListedText(written: string, head: string, items: seq<seq<Field>>, w: nat, text: string)
    requires w < |items| && written == head + ItemsJoined(Values(items[..w])) && text == ObjectText(items[w])
    ensures written + Separated(w, text) == head + ItemsJoined(Values(items[..w + 1]))
  {
    ValuesNext(items, w);
    Regroup(head, ItemsJoined(Values(items[..w])), Separated(w, text));
  }

  lemma ListedMore(written: string, head: string, items: seq<seq<Field>>, w: nat, off: nat, cap: nat, text: string)
    requires Listed(written, head, items, w, off, cap) && w < |items| && IsItem(text, items[w]) && off + |Separated(w, text)| < cap
    ensures Listed(written + Separated(w, text), head, items, w + 1, off + |Separated(w, text)|, cap)
  {
    assert Look(0) && Peek(0);
    FittingStep(items, w, off, cap, off + |Separated(w, text)|);
    ListedText(written, head, items, w, text);
  }

  lemma ListedFull(written: string, head: string, items: seq<seq<Field>>, w: nat, off: nat, cap: nat, text: string)
    requires Listed(written, head, items, w, off, cap) && w < |items| && IsItem(text, items[w]) && off + |Separated(w, text)| >= cap
    ensures Full(head, items, w, cap)
  {
    assert Look(0) && Peek(0);
    FittingStep(items, w, off, cap, off + |Separated(w, text)|);
  }

  lemma ListedNext(written: string, head: string, items: seq<seq<Field>>, w: nat, off: nat, cap: nat, text: string)
    requires Listed(written, head, items, w, off, cap) && w < |items| && IsItem(text, items[w])
    ensures off + |Separated(w, text)| < cap ==>
      Listed(written + Separated(w, text), head, items, w + 1, off + |Separated(w, text)|, cap)
    ensures off + |Separated(w, text)| >= cap ==> Full(head, items, w, cap)
  {
    if off + |Separated(w, text)| < cap {
      ListedMore(written, head, items, w, off, cap, text);
    } else {
      ListedFull(written, head, items, w, off, cap, text);
    }
  }

  /** The rows' objects. */
  ghost predicate Shows(items: seq<seq<Field>>, rows: seq<Row>) {
    forall n {:trigger Peek(n)} :: Peek(n) ==> |items| == |rows| && forall i :: 0 <= i < |rows| ==> items[i] == RowFields(rows[i])
  }

  method FormatItem(rows: seq<Row>, w: nat, ghost items: seq<seq<Field>>) returns (text: string)
    requires w < |rows| == |items| && Shows(items, rows)
    ensures IsItem(text, items[w]) && text != ""
  {
    assert Peek(0);
    var fs := FormatRow(rows[w]);
    text := ObjectText(fs);
  }

  /** One more row: formatted and put, or rolled back. */
  method PutRow(resp: array<char>, cap: nat, head: string, rows: seq<Row>, w: nat, off: nat, ghost items: seq<seq<Field>>)
    returns (ok: bool, off': nat)
    requires w < |rows| == |items| && off < cap <= resp.Length && Shows(items, rows) && Listed(resp[..off], head, items, w, off, cap)
    modifies resp
    ensures off' < cap && (ok ==> Listed(resp[..off'], head, items, w + 1, off', cap))
    ensures !ok ==> Listed(resp[..off'], head, items, w, off', cap) && Full(head, items, w, cap)
  {
    var text := FormatItem(rows, w, items);
    ListedNext(resp[..off], head, items, w, off, cap, text);
    ok, off' := PutItem(resp, cap, off, w, text);
  }

  /** The loop the plain list handlers share. */
  method ListRows(resp: array<char>, cap: nat, head: string, rows: seq<Row>, ghost items: seq<seq<Field>>) returns (w: nat, off: nat)
    requires |items| == |rows| && |head| < cap <= resp.Length && resp[..|head|] == head && Shows(items, rows)
    modifies resp
    ensures w <= |rows| && off < cap && Listed(resp[..off], head, items, w, off, cap) && Full(head, items, w, cap)
  {
    w, off := 0, |head|;
    ListedStart(head, items, cap);
    while w < |rows|
      invariant w <= |rows| && off < cap && Listed(resp[..off], head, items, w, off, cap)
    {
      var ok;
      ok, off := PutRow(resp, cap, head, rows, w, off, items);
      if !ok {
        return;
      }
      w := w + 1;
    }
    ListedAll(resp[..off], head, items, off, cap);
  }

  lemma ListedAll(written: string, head: string, items: seq<seq<Field>>, off: nat, cap: nat)
    requires Listed(written, head, items, |items|, off, cap)
    ensures Full(head, items, |items|, cap)
  {
    assert Look(0);
  }

  /** What `Full` comes to: the items written fit after the head, and one more would not have. */
  lemma {:induction false} FittingMeans(head: string, items: seq<seq<Field>>, i: nat, off: nat, cap: nat, n: nat)
    requires i <= n <= |items| && off < cap && off == |head| + |ItemsJoined(Values(items[..i]))| && i + Fitting(items, i, off, cap) == n
    ensures |head| + |ItemsJoined(Values(items[..n]))| < cap
    ensures n < |items| ==> |head| + |ItemsJoined(Values(items[..n + 1]))| >= cap
    decreases |items| - i
  {
    if i < |items| {
      ValuesNext(items, i);
      var end := off + |Separated(i, ObjectText(items[i]))|;
      if end < cap {
        FittingMeans(head, items, i + 1, end, cap, n);
      }
    }
  }

  lemma FullMeans(head: string, items: seq<seq<Field>>, w: nat, cap: nat)
    requires Full(head, items, w, cap) && |head| < cap && w <= |items|
    ensures |head| + |ItemsJoined(Values(items[..w]))| < cap
    ensures w < |items| ==> |head| + |ItemsJoined(Values(items[..w + 1]))| >= cap
  {
    assert Look(0);
    assert Values(items[..0]) == [];
    FittingMeans(head, items, 0, |head|, cap, w);
  }

  function RowItems(rows: seq<Row>): (items: seq<seq<Field>>)
    ensures Shows(items, rows) && |items| == |rows|
  {
    seq(|rows|, i requires 0 <= i < |rows| => RowFields(rows[i]))
  }

  // ---- Hubs and hops: objects spliced in the buffer ----

  function DegreeTail(d: nat): string {
    ",\"degree\":" + (Dec(d) + "}")
  }

  function DepthHead(d: nat): string {
    "{\"depth\":" + (Dec(d) + ",")
  }

  lemma NumText(key: string, n: nat, quoted: string)
    requires quoted == "\"" + (key + "\":")
    ensures FieldText(Num(key, n)) == quoted + Dec(n)
  {
    Regroup(key, "\":", Dec(n));
    Regroup("\"", key + "\":", Dec(n));
  }

  lemma HubShuffle(open: string, body: string, comma: string, quoted: string, n: string, close: string)
    ensures (open + body) + ((comma + quoted) + (n + close)) == open + ((body + (comma + (quoted + n))) + close)
  {}

  lemma HopShuffle(open: string, quoted: string, n: string, comma: string, body: string, close: string)
    ensures ((open + quoted) + (n + comma)) + (body + close) == open + (((quoted + n) + (comma + body)) + close)
  {}

  lemma OuterBraces(body: string)
    ensures var t := "{" + (body + "}"); t[..|t| - 1] == "{" + body && t[1..] == body + "}"
  {}

  /** An object without its closing brace, and one more member. */
  lemma HubSplices(t: string, fs: seq<Field>, d: nat)
    requires IsItem(t, fs) && fs != []
    ensures t != "" && IsItem(t[..|t| - 1] + DegreeTail(d), fs + [Num("degree", d)])
  {
    assert Peek(0);
    var body, quoted := FieldsText(fs), "\"degree\":";
    OuterBraces(body);
    NumText("degree", d, quoted);
    FieldsNext(fs, Num("degree", d));
    assert ",\"degree\":" == "," + quoted;
    HubShuffle("{", body, ",", quoted, Dec(d), "}");
  }

  lemma FieldsFirst(f: Field, fs: seq<Field>)
    requires fs != []
    ensures FieldsText([f] + fs) == FieldText(f) + ("," + FieldsText(fs))
  {
    HeadAndTail(f, fs);
  }

  /** One more member after the opening brace. */
  lemma HopSplices(t: string, fs: seq<Field>, d: nat)
    requires IsItem(t, fs) && fs != []
    ensures t != "" && IsItem(DepthHead(d) + t[1..], [Num("depth", d)] + fs)
  {
    assert Peek(0);
    var body, quoted := FieldsText(fs), "\"depth\":";
    OuterBraces(body);
    NumText("depth", d, quoted);
    FieldsFirst(Num("depth", d), fs);
    assert "{\"depth\":" == "{" + quoted;
    HopShuffle("{", quoted, Dec(d), ",", body, "}");
  }

  lemma CutLast(before: string, t: string)
    requires t != ""
    ensures (before + t)[..|before| + |t| - 1] == before + t[..|t| - 1]
  {}

  lemma SpliceAt(before: string, w: nat, t: string, tail: string)
    requires t != ""
    ensures (before + Separated(w, t))[..|before| + |Separated(w, t)| - 1] + tail == before + Separated(w, t[..|t| - 1] + tail)
    ensures |Separated(w, t[..|t| - 1] + tail)| == |Separated(w, t)| - 1 + |tail|
  {
    CutLast(before, Separated(w, t));
    Regroup(before, Separated(w, t)[..|Separated(w, t)| - 1], tail);
    if w > 0 {
      CutLast(",", t);
      Regroup(",", t[..|t| - 1], tail);
    }
  }

  /** Takes the last byte back and appends, or rolls the whole item back. */
  method Respell(resp: array<char>, cap: nat, mark: nat, off: nat, tail: string, ghost before: string, ghost put: string)
    returns (ok: bool, off': nat)
    requires mark < off < cap <= resp.Length && put != "" && |before| == mark && off == mark + |put| && resp[..off] == before + put
    modifies resp
    ensures ok <==> off - 1 + |tail| < cap
    ensures ok ==> off' == off - 1 + |tail| && resp[..off'] == (before + put)[..off - 1] + tail
    ensures !ok ==> off' == mark && resp[..off'] == before
  {
    var back: nat := off - 1;
    assert resp[..back] == (before + put)[..back];
    assert resp[..mark] == before;
    ok, off' := Append(resp, cap, back, tail);
    if !ok {
      off' := mark;
      resp[off'] := '\0';
      assert resp[..off'] == resp[..back][..mark];
    }
  }

  /** A hub's item is its node's object and the degree, which is printed as `tail`. */
  ghost predicate IsHub(item: seq<Field>, fs: seq<Field>, degree: nat, tail: string) {
    forall n {:trigger Peek(n)} :: Peek(n) ==> item == fs + [Num("degree", degree)] && fs != [] && tail == DegreeTail(degree)
  }

  lemma HubSpelled(node: string, fs: seq<Field>, degree: nat, tail: string, item: seq<Field>)
    requires IsItem(node, fs) && IsHub(item, fs, degree, tail)
    ensures node != "" && tail != "" && IsItem(node[..|node| - 1] + tail, item)
  {
    assert Peek(0);
    HubSplices(node, fs, degree);
  }

  lemma HubNext(before: string, head: string, items: seq<seq<Field>>, w: nat, off: nat, cap: nat, node: string, fs: seq<Field>, degree: nat,
                tail: string, put: string)
    requires w < |items| && |before| == off && Listed(before, head, items, w, off, cap) && put == Separated(w, node)
    requires IsItem(node, fs) && IsHub(items[w], fs, degree, tail)
    ensures node != "" && put != ""
    ensures off + |put| - 1 + |tail| < cap ==>
      Listed((before + put)[..off + |put| - 1] + tail, head, items, w + 1, off + |put| - 1 + |tail|, cap)
    ensures off + |put| - 1 + |tail| >= cap ==> Full(head, items, w, cap)
    ensures off + |put| >= cap ==> Full(head, items, w, cap)
  {
    HubSpelled(node, fs, degree, tail, items[w]);
    SpliceAt(before, w, node, tail);
    ListedNext(before, head, items, w, off, cap, node[..|node| - 1] + tail);
  }

  /** A hub: the node's object is written, its closing brace taken back, and the degree put in. */
  method PutHub(resp: array<char>, cap: nat, head: string, node: string, tail: string, w: nat, off: nat, ghost degree: nat, ghost fs: seq<Field>,
                ghost items: seq<seq<Field>>)
    returns (ok: bool, off': nat)
    requires w < |items| && off < cap <= resp.Length && Listed(resp[..off], head, items, w, off, cap)
    requires IsItem(node, fs) && IsHub(items[w], fs, degree, tail)
    modifies resp
    ensures off' < cap && (ok ==> Listed(resp[..off'], head, items, w + 1, off', cap))
    ensures !ok ==> Listed(resp[..off'], head, items, w, off', cap) && Full(head, items, w, cap)
  {
    ghost var before, put := resp[..off], Separated(w, node);
    HubNext(before, head, items, w, off, cap, node, fs, degree, tail, put);
    ok, off' := PutItem(resp, cap, off, w, node);
    if ok {
      ok, off' := Respell(resp, cap, off, off', tail, before, put);
    }
  }

  const EDGE_BUFFER: nat := 4096

  lemma HopSpelled(edge: string, fs: seq<Field>, depth: nat, front: string, item: seq<Field>)
    requires IsItem(edge, fs) && IsHop(item, fs, depth, front)
    ensures edge != "" && IsItem(front + edge[1..], item) && front + edge[1..] != ""
  {
    assert Peek(0);
    HopSplices(edge, fs, depth);
  }

  /** A hop: the edge's object is written to a buffer of its own, and spliced in after the depth. */
  method PutHop(resp: array<char>, cap: nat, head: string, edge: string, front: string, w: nat, off: nat, ghost depth: nat, ghost fs: seq<Field>,
                ghost items: seq<seq<Field>>)
    returns (ok: bool, off': nat)
    requires w < |items| && off < cap <= resp.Length && Listed(resp[..off], head, items, w, off, cap)
    requires IsItem(edge, fs) && IsHop(items[w], fs, depth, front)
    modifies resp
    ensures off' < cap && (ok ==> Listed(resp[..off'], head, items, w + 1, off', cap))
    ensures !ok ==> Listed(resp[..off'], head, items, w, off', cap) && (|edge| >= EDGE_BUFFER || Full(head, items, w, cap))
  {
    HopSpelled(edge, fs, depth, front, items[w]);
    if |edge| >= EDGE_BUFFER {
      return false, off;
    }
    var text := front + edge[1..];
    ListedNext(resp[..off], head, items, w, off, cap, text);
    ok, off' := PutItem(resp, cap, off, w, text);
  }

  // ---- The loops over hubs and hops ----

  datatype Hub = Hub(node: Row, degree: nat)

  datatype Hop = Hop(edge: Row, depth: nat)

  function HubItems(hubs: seq<Hub>): (items: seq<seq<Field>>)
    ensures ShowsHubs(items, hubs) && |items| == |hubs|
  {
    seq(|hubs|, i requires 0 <= i < |hubs| => RowFields(hubs[i].node) + [Num("degree", hubs[i].degree)])
  }

  function HopItems(hops: seq<Hop>): (items: seq<seq<Field>>)
    ensures ShowsHops(items, hops) && |items| == |hops|
  {
    seq(|hops|, i requires 0 <= i < |hops| => [Num("depth", hops[i].depth)] + RowFields(hops[i].edge))
  }

  ghost predicate ShowsHubs(items: seq<seq<Field>>, hubs: seq<Hub>) {
    forall n {:trigger Peek(n)} :: Peek(n) ==>
      |items| == |hubs| && forall i :: 0 <= i < |hubs| ==> items[i] == RowFields(hubs[i].node) + [Num("degree", hubs[i].degree)]
  }

  ghost predicate ShowsHops(items: seq<seq<Field>>, hops: seq<Hop>) {
    forall n {:trigger Peek(n)} :: Peek(n) ==>
      |items| == |hops| && forall i :: 0 <= i < |hops| ==> items[i] == [Num("depth", hops[i].depth)] + RowFields(hops[i].edge)
  }

  /** A hub's last member. */
  lemma DegreeMember(hubs: seq<Hub>, i: nat, fs: seq<Field>)
    requires i < |hubs| && fs == HubItems(hubs)[i]
    ensures fs != [] && fs[..|fs| - 1] == RowFields(hubs[i].node) && NumberUnder(fs[|fs| - 1], "degree", hubs[i].degree)
  {
    assert Peek(0);
    NumIsUnder(fs, |fs| - 1, "degree", hubs[i].degree);
  }

  /** A hop's first member. */
  lemma DepthMember(hops: seq<Hop>, i: nat, fs: seq<Field>)
    requires i < |hops| && fs == HopItems(hops)[i]
    ensures fs != [] && fs[1..] == RowFields(hops[i].edge) && NumberUnder(fs[0], "depth", hops[i].depth)
  {
    assert Peek(0);
    NumIsUnder(fs, 0, "depth", hops[i].depth);
  }

  method FormatHub(hubs: seq<Hub>, w: nat, ghost items: seq<seq<Field>>) returns (node: string, tail: string, ghost fs: seq<Field>)
    requires w < |hubs| == |items| && ShowsHubs(items, hubs)
    ensures IsItem(node, fs) && IsHub(items[w], fs, hubs[w].degree, tail)
  {
    assert Peek(0);
    var row := FormatRow(hubs[w].node);
    node, tail, fs := ObjectText(row), DegreeTail(hubs[w].degree), row;
  }

  /** A hop's item is the depth and its edge's object. */
  ghost predicate IsHop(item: seq<Field>, fs: seq<Field>, depth: nat, front: string) {
    forall n {:trigger Peek(n)} :: Peek(n) ==> item == [Num("depth", depth)] + fs && fs != [] && front == DepthHead(depth)
  }

  method FormatHop(hops: seq<Hop>, w: nat, ghost items: seq<seq<Field>>) returns (edge: string, front: string, ghost fs: seq<Field>)
    requires w < |hops| == |items| && ShowsHops(items, hops)
    ensures IsItem(edge, fs) && IsHop(items[w], fs, hops[w].depth, front)
  {
    assert Peek(0);
    var row := FormatRow(hops[w].edge);
    edge, front, fs := ObjectText(row), DepthHead(hops[w].depth), row;
  }

  /** The loop of `handle_graph_hubs`. */
  method ListHubs(resp: array<char>, cap: nat, head: string, hubs: seq<Hub>, ghost items: seq<seq<Field>>) returns (w: nat, off: nat)
    requires |items| == |hubs| && |head| < cap <= resp.Length && resp[..|head|] == head && ShowsHubs(items, hubs)
    modifies resp
    ensures w <= |hubs| && off < cap && Listed(resp[..off], head, items, w, off, cap) && Full(head, items, w, cap)
  {
    w, off := 0, |head|;
    ListedStart(head, items, cap);
    while w < |hubs|
      invariant w <= |hubs| && off < cap && Listed(resp[..off], head, items, w, off, cap)
    {
      var node, tail, fs := FormatHub(hubs, w, items);
      var ok;
      ok, off := PutHub(resp, cap, head, node, tail, w, off, hubs[w].degree, fs, items);
      if !ok {
        return;
      }
      w := w + 1;
    }
    ListedAll(resp[..off], head, items, off, cap);
  }

  /** An edge too long for its own buffer ends the list, too. */
  ghost predicate TooLong(item: seq<Field>) {
    item != [] && |ObjectText(item[1..])| >= 4096
  }

  lemma LongEdge(edge: string, fs: seq<Field>, item: seq<Field>, depth: nat, front: string)
    requires IsItem(edge, fs) && IsHop(item, fs, depth, front)
    ensures item != [] && item[1..] == fs
    ensures |edge| >= EDGE_BUFFER <==> TooLong(item)
  {
    assert Peek(0);
    HeadAndTail(Num("depth", depth), fs);
  }

  /** The loop of `handle_trace_path`. */
  method ListHops(resp: array<char>, cap: nat, head: string, hops: seq<Hop>, ghost items: seq<seq<Field>>) returns (w: nat, off: nat)
    requires |items| == |hops| && |head| < cap <= resp.Length && resp[..|head|] == head && ShowsHops(items, hops)
    modifies resp
    ensures w <= |hops| && off < cap && Listed(resp[..off], head, items, w, off, cap)
    ensures Full(head, items, w, cap) || (w < |items| && TooLong(items[w]))
  {
    w, off := 0, |head|;
    ListedStart(head, items, cap);
    while w < |hops|
      invariant w <= |hops| && off < cap && Listed(resp[..off], head, items, w, off, cap)
    {
      var edge, front, fs := FormatHop(hops, w, items);
      LongEdge(edge, fs, items[w], hops[w].depth, front);
      var ok;
      ok, off := PutHop(resp, cap, head, edge, front, w, off, hops[w].depth, fs, items);
      if !ok {
        return;
      }
      w := w + 1;
    }
    ListedAll(resp[..off], head, items, off, cap);
  }
}
