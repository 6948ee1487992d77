/**
 What the list handlers send, whole: one line of well-formed JSON holding the first items found, `truncated`
 set whenever one is missing; and a hit list that is never cut.
 */
module JsonHandlers {
  import opened Common
  import opened ChunkKeys
  import opened JsonTheorems
  import opened JsonEscape
  import opened JsonReplies
  import opened JsonLists

  // ---- Replies ----

  function Flag(b: bool): string {
    if b then "true" else "false"
  }

  /** A graph reply as a value. */
  function ListReply(name: string, vs: seq<Value>, truncated: bool): Value {
    Object([Field("ok", Lit("true")), Field(name, Array(vs)), Field("truncated", Lit(Flag(truncated)))])
  }

  /** A reply to a search. */
  function HitsReply(vs: seq<Value>): Value {
    Object([Field("ok", Lit("true")), Field("results", Array(vs))])
  }

  function Head(name: string): string {
    "{\"ok\":true,\"" + (name + "\":[")
  }

  function Trailer(truncated: bool): string {
    "],\"truncated\":" + (Flag(truncated) + "}\n")
  }

  const HITS_TRAILER := "]}\n"

  /** One line: a value and a line break. */
  function Line(v: Value): string {
    ValueText(v) + "\n"
  }

  lemma ThreeFields(a: Field, b: Field, c: Field)
    ensures ValueText(Object([a, b, c])) == "{" + ((FieldText(a) + ("," + (FieldText(b) + ("," + FieldText(c))))) + "}")
  {
    ObjectIsText([a, b, c]);
    assert [a, b, c][1..] == [b, c] && [b, c][1..] == [c];
    assert FieldsText([b, c]) == FieldText(b) + ("," + FieldText(c));
  }

  lemma TwoFields(a: Field, b: Field)
    ensures ValueText(Object([a, b])) == "{" + ((FieldText(a) + ("," + FieldText(b))) + "}")
  {
    ObjectIsText([a, b]);
    assert [a, b][1..] == [b];
    assert FieldsText([b]) == FieldText(b);
  }

  lemma OkText()
    ensures FieldText(Field("ok", Lit("true"))) == "\"ok\":true"
  {
    assert "\"" + ("ok" + ("\":" + "true")) == "\"ok\":true";
  }

  lemma FlagText(b: bool)
    ensures FieldText(Field("truncated", Lit(Flag(b)))) == "\"truncated\":" + Flag(b)
  {
    assert "\"" + ("truncated" + "\":") == "\"truncated\":";
    Regroup("truncated", "\":", Flag(b));
    Regroup("\"", "truncated" + "\":", Flag(b));
  }

  lemma ArrayField(name: string, vs: seq<Value>)
    ensures FieldText(Field(name, Array(vs))) == "\"" + (name + ("\":" + ("[" + (ItemsJoined(vs) + "]"))))
  {
    ArrayIsText(vs);
  }

  lemma Assemble(name: string, items: string, flag: string)
    ensures (("{\"ok\":true,\"" + (name + "\":[")) + items) + ("],\"truncated\":" + (flag + "}\n")) ==
      ("{" + (("\"ok\":true" + ("," + (("\"" + (name + ("\":" + ("[" + (items + "]"))))) + ("," + ("\"truncated\":" + flag))))) + "}")) + "\n"
  {}

  lemma AssembleHits(items: string)
    ensures (("{\"ok\":true,\"" + ("results" + "\":[")) + items) + "]}\n" ==
      ("{" + (("\"ok\":true" + ("," + ("\"" + ("results" + ("\":" + ("[" + (items + "]"))))))) + "}")) + "\n"
  {}

  lemma ReplyText(name: string, vs: seq<Value>, truncated: bool)
    ensures (Head(name) + ItemsJoined(vs)) + Trailer(truncated) == Line(ListReply(name, vs, truncated))
  {
    ThreeFields(Field("ok", Lit("true")), Field(name, Array(vs)), Field("truncated", Lit(Flag(truncated))));
    OkText();
    ArrayField(name, vs);
    FlagText(truncated);
    Assemble(name, ItemsJoined(vs), Flag(truncated));
  }

  /** A graph reply, byte by byte. */
  lemma ReplyBytes(name: string, vs: seq<Value>, truncated: bool)
    ensures Line(ListReply(name, vs, truncated)) ==
      (("{\"ok\":true,\"" + (name + "\":[")) + ItemsJoined(vs)) + (if truncated then "],\"truncated\":true}\n" else "],\"truncated\":false}\n")
  {
    ReplyText(name, vs, truncated);
    assert "],\"truncated\":" + (Flag(truncated) + "}\n") == if truncated then "],\"truncated\":true}\n" else "],\"truncated\":false}\n";
  }

  lemma HitsText(vs: seq<Value>)
    ensures (Head("results") + ItemsJoined(vs)) + HITS_TRAILER == Line(HitsReply(vs))
  {
    TwoFields(Field("ok", Lit("true")), Field("results", Array(vs)));
    OkText();
    ArrayField("results", vs);
    AssembleHits(ItemsJoined(vs));
  }

  // ---- Well-formed ----

  lemma ReplyIsFine(name: string, vs: seq<Value>, truncated: bool)
    requires SimpleKey(name) && forall i :: 0 <= i < |vs| ==> WellFormed(vs[i])
    ensures WellFormed(ListReply(name, vs, truncated))
  {
    SimpleDecodes(name);
    SimpleDecodes("ok");
    SimpleDecodes("truncated");
    ArrayIsFine(vs);
    ThreeFine(Field("ok", Lit("true")), Field(name, Array(vs)), Field("truncated", Lit(Flag(truncated))));
    ObjectIsFine([Field("ok", Lit("true")), Field(name, Array(vs)), Field("truncated", Lit(Flag(truncated)))]);
  }

  lemma FineFront(fs: seq<Field>, n: nat)
    requires FieldsFine(fs) && n <= |fs|
    ensures FieldsFine(fs[..n])
  {}

  lemma PairIsFine(a: Field, b: Field)
    requires FieldFine(a) && FieldFine(b)
    ensures WellFormed(Object([a, b]))
  {
    ThreeFine(a, b, b);
    FineFront([a, b, b], 2);
    assert [a, b, b][..2] == [a, b];
    ObjectIsFine([a, b]);
  }

  lemma HitsReplyIsFine(vs: seq<Value>)
    requires forall i :: 0 <= i < |vs| ==> WellFormed(vs[i])
    ensures WellFormed(HitsReply(vs))
  {
    SimpleDecodes("ok");
    SimpleDecodes("results");
    ArrayIsFine(vs);
    PairIsFine(Field("ok", Lit("true")), Field("results", Array(vs)));
  }

  /** The items of rows that were printed are well-formed objects. */
  lemma RowsAreFine(rows: seq<Row>, w: nat)
    requires w <= |rows| && forall i :: 0 <= i < |rows| ==> Printed(rows[i])
    ensures forall i :: 0 <= i < w ==> WellFormed(Values(RowItems(rows)[..w])[i])
  {
    assert Peek(0);
    forall i | 0 <= i < w
      ensures WellFormed(Values(RowItems(rows)[..w])[i])
    {
      RowIsFine(rows[i]);
      ObjectIsFine(RowFields(rows[i]));
    }
  }

  lemma HubsAreFine(hubs: seq<Hub>, w: nat)
    requires w <= |hubs| && forall i :: 0 <= i < |hubs| ==> Printed(hubs[i].node)
    ensures forall i :: 0 <= i < w ==> WellFormed(Values(HubItems(hubs)[..w])[i])
  {
    assert Peek(0);
    forall i | 0 <= i < w
      ensures WellFormed(Values(HubItems(hubs)[..w])[i])
    {
      var d := Num("degree", hubs[i].degree);
      RowIsFine(hubs[i].node);
      NumIsFine("degree", hubs[i].degree);
      ThreeFine(d, d, d);
      FineFront([d, d, d], 1);
      assert [d, d, d][..1] == [d];
      FineJoin(RowFields(hubs[i].node), [d]);
      ObjectIsFine(RowFields(hubs[i].node) + [d]);
    }
  }

  lemma HopsAreFine(hops: seq<Hop>, w: nat)
    requires w <= |hops| && forall i :: 0 <= i < |hops| ==> Printed(hops[i].edge)
    ensures forall i :: 0 <= i < w ==> WellFormed(Values(HopItems(hops)[..w])[i])
  {
    assert Peek(0);
    forall i | 0 <= i < w
      ensures WellFormed(Values(HopItems(hops)[..w])[i])
    {
      var d := Num("depth", hops[i].depth);
      RowIsFine(hops[i].edge);
      NumIsFine("depth", hops[i].depth);
      ThreeFine(d, d, d);
      FineFront([d, d, d], 1);
      assert [d, d, d][..1] == [d];
      FineJoin([d], RowFields(hops[i].edge));
      ObjectIsFine([d] + RowFields(hops[i].edge));
    }
  }

  // ---- The handlers ----

  /** `ipc_cap_truncated`: the cap, not the caller's limit, may have ended the list. */
  predicate CapTruncated(found: nat, want: nat, limit: nat, cap: nat) {
    found >= want && (limit > cap || found >= cap)
  }

  /** `ipc_clamp_want`. */
  function Want(limit: nat, cap: nat): nat {
    if limit > cap then cap else limit
  }

  /** A list no longer than the limit and the cap is marked exactly when an item is missing or the list is as long as the cap. */
  lemma MarkedIff(found: nat, w: nat, limit: nat, cap: nat)
    requires found <= limit && found <= cap
    ensures CapTruncated(found, Want(limit, cap), limit, cap) || w < found <==> w < found || found == cap
  {}

  /** The trailer goes after the items: the reserved bytes always suffice. */
  method Finish(resp: array<char>, off: nat, trailer: string) returns (sent: string)
    requires off + |trailer| < resp.Length
    modifies resp
    ensures sent == old(resp[..off]) + trailer
  {
    ghost var before := resp[..off];
    forall k | 0 <= k < |trailer| {
      resp[off + k] := trailer[k];
    }
    resp[off + |trailer|] := '\0';
    sent := resp[..off + |trailer|];
    assert sent == before + trailer;
  }

  method StartReply(size: nat, head: string) returns (resp: array<char>)
    requires |head| < size
    ensures fresh(resp) && resp.Length == size && resp[..|head|] == head
  {
    resp := new char[size](_ => '\0');
    forall k | 0 <= k < |head| {
      resp[k] := head[k];
    }
    assert resp[..|head|] == head;
  }

  /** The reply holds the first `w` items, and says whether something is missing. */
  ghost predicate Replies(sent: string, name: string, items: seq<seq<Field>>, w: nat, truncated: bool) {
    w <= |items| && sent == Line(ListReply(name, Values(items[..w]), truncated)) && (w < |items| ==> truncated)
  }

  lemma SentIs(written: string, sent: string, name: string, items: seq<seq<Field>>, w: nat, off: nat, cap: nat, truncated: bool)
    requires Listed(written, Head(name), items, w, off, cap) && sent == written + Trailer(truncated) && (w < |items| ==> truncated)
    ensures Replies(sent, name, items, w, truncated)
  {
    assert Look(0);
    ReplyText(name, Values(items[..w]), truncated);
  }

  /**
   What the contracts of the list handlers come to, for a list no longer than the limit and the cap: the items
   written are the first that fit in `room` bytes, one more would not have, and the reply is marked exactly when
   one is missing or the list is as long as the cap.
   */
  lemma ListIsSent(sent: string, name: string, items: seq<seq<Field>>, w: nat, limit: nat, cap: nat, room: nat)
    requires Replies(sent, name, items, w, CapTruncated(|items|, Want(limit, cap), limit, cap) || w < |items|)
    requires Full(Head(name), items, w, room) && |name| + 15 < room && |items| <= limit && |items| <= cap
    ensures sent == (("{\"ok\":true,\"" + (name + "\":[")) + ItemsJoined(Values(items[..w]))) +
                    (if w < |items| || |items| == cap then "],\"truncated\":true}\n" else "],\"truncated\":false}\n")
    ensures |name| + 15 + |ItemsJoined(Values(items[..w]))| < room
    ensures w < |items| ==> |name| + 15 + |ItemsJoined(Values(items[..w + 1]))| >= room
  {
    MarkedIff(|items|, w, limit, cap);
    ReplyBytes(name, Values(items[..w]), w < |items| || |items| == cap);
    assert |Head(name)| == |name| + 15;
    FullMeans(Head(name), items, w, room);
  }

  /** What the client can read: one well-formed value, and the only line break is the one that ends it. */
  ghost predicate OneLine(sent: string) {
    exists v: Value :: WellFormed(v) && sent == Line(v) && '\n' !in ValueText(v)
  }

  lemma ReplyNames()
    ensures SimpleKey("results") && SimpleKey("hops")
  {}

  lemma ReplyIsOneLine(sent: string, name: string, items: seq<seq<Field>>, w: nat, truncated: bool)
    requires Replies(sent, name, items, w, truncated) && SimpleKey(name)
    requires forall i :: 0 <= i < w ==> WellFormed(Values(items[..w])[i])
    ensures OneLine(sent)
  {
    var v := ListReply(name, Values(items[..w]), truncated);
    ReplyIsFine(name, Values(items[..w]), truncated);
    ValueHasNoBreak(v);
  }

  /** Every fraction in the rows was finite. */
  predicate AllPrinted(rows: seq<Row>) {
    forall i :: 0 <= i < |rows| ==> Printed(rows[i])
  }

  lemma RowsOneLine(sent: string, rows: seq<Row>, w: nat, truncated: bool)
    requires AllPrinted(rows) && Replies(sent, "results", RowItems(rows), w, truncated)
    ensures OneLine(sent)
  {
    ReplyNames();
    RowsAreFine(rows, w);
    ReplyIsOneLine(sent, "results", RowItems(rows), w, truncated);
  }

  /** The nodes under hubs. */
  function Nodes(hubs: seq<Hub>): (rows: seq<Row>)
    ensures |rows| == |hubs| && forall i :: 0 <= i < |hubs| ==> rows[i] == hubs[i].node
  {
    seq(|hubs|, i requires 0 <= i < |hubs| => hubs[i].node)
  }

  lemma HubsOneLine(sent: string, hubs: seq<Hub>, w: nat, truncated: bool)
    requires AllPrinted(Nodes(hubs)) && Replies(sent, "results", HubItems(hubs), w, truncated)
    ensures OneLine(sent)
  {
    ReplyNames();
    forall i | 0 <= i < |hubs|
      ensures Printed(hubs[i].node)
    {
      assert Printed(Nodes(hubs)[i]);
    }
    HubsAreFine(hubs, w);
    ReplyIsOneLine(sent, "results", HubItems(hubs), w, truncated);
  }

  /** The edges under hops. */
  function Edges(hops: seq<Hop>): (rows: seq<Row>)
    ensures |rows| == |hops| && forall i :: 0 <= i < |hops| ==> rows[i] == hops[i].edge
  {
    seq(|hops|, i requires 0 <= i < |hops| => hops[i].edge)
  }

  lemma HopsOneLine(sent: string, hops: seq<Hop>, w: nat, truncated: bool)
    requires AllPrinted(Edges(hops)) && Replies(sent, "hops", HopItems(hops), w, truncated)
    ensures OneLine(sent)
  {
    ReplyNames();
    forall i | 0 <= i < |hops|
      ensures Printed(hops[i].edge)
    {
      assert Printed(Edges(hops)[i]);
    }
    HopsAreFine(hops, w);
    ReplyIsOneLine(sent, "hops", HopItems(hops), w, truncated);
  }

  const HUBS_CAP: nat := 64
  const HOPS_CAP: nat := 256
  const REPLY_SIZE: nat := 65536
  const HOPS_REPLY_SIZE: nat := 131072

  /** `handle_search_graph` with 64 nodes at most, `handle_graph_refs` with 256 edges: what follows the query. */
  method RowsReply(rows: seq<Row>, limit: nat, cap: nat) returns (sent: string, ghost w: nat)
    ensures Replies(sent, "results", RowItems(rows), w, CapTruncated(|rows|, Want(limit, cap), limit, cap) || w < |rows|)
    ensures Full(Head("results"), RowItems(rows), w, 65472)
    ensures AllPrinted(rows) ==> OneLine(sent)
  {
    var head := Head("results");
    var resp := StartReply(REPLY_SIZE, head);
    var written, off := ListRows(resp, REPLY_SIZE - TAIL_RESERVE, head, rows, RowItems(rows));
    var truncated := CapTruncated(|rows|, Want(limit, cap), limit, cap);
    if written < |rows| {
      truncated := true;
    }
    ghost var list := resp[..off];
    sent := Finish(resp, off, Trailer(truncated));
    w := written;
    SentIs(list, sent, "results", RowItems(rows), w, off, REPLY_SIZE - TAIL_RESERVE, truncated);
    if AllPrinted(rows) {
      RowsOneLine(sent, rows, w, truncated);
    }
  }

  /** `handle_graph_hubs`. */
  method HubsReply(hubs: seq<Hub>, limit: nat) returns (sent: string, ghost w: nat)
    ensures Replies(sent, "results", HubItems(hubs), w, CapTruncated(|hubs|, Want(limit, 64), limit, 64) || w < |hubs|)
    ensures Full(Head("results"), HubItems(hubs), w, 65472)
    ensures AllPrinted(Nodes(hubs)) ==> OneLine(sent)
  {
    var head := Head("results");
    var resp := StartReply(REPLY_SIZE, head);
    var written, off := ListHubs(resp, REPLY_SIZE - TAIL_RESERVE, head, hubs, HubItems(hubs));
    var truncated := CapTruncated(|hubs|, Want(limit, HUBS_CAP), limit, HUBS_CAP);
    if written < |hubs| {
      truncated := true;
    }
    ghost var list := resp[..off];
    sent := Finish(resp, off, Trailer(truncated));
    w := written;
    SentIs(list, sent, "results", HubItems(hubs), w, off, REPLY_SIZE - TAIL_RESERVE, truncated);
    if AllPrinted(Nodes(hubs)) {
      HubsOneLine(sent, hubs, w, truncated);
    }
  }

  /** `handle_trace_path`. */
  method HopsReply(hops: seq<Hop>, limit: nat) returns (sent: string, ghost w: nat)
    ensures Replies(sent, "hops", HopItems(hops), w, CapTruncated(|hops|, Want(limit, 256), limit, 256) || w < |hops|)
    ensures Full(Head("hops"), HopItems(hops), w, 131008) || (w < |hops| && TooLong(HopItems(hops)[w]))
    ensures AllPrinted(Edges(hops)) ==> OneLine(sent)
  {
    var head := Head("hops");
    var resp := StartReply(HOPS_REPLY_SIZE, head);
    var written, off := ListHops(resp, HOPS_REPLY_SIZE - TAIL_RESERVE, head, hops, HopItems(hops));
    var truncated := CapTruncated(|hops|, Want(limit, HOPS_CAP), limit, HOPS_CAP);
    if written < |hops| {
      truncated := true;
    }
    ghost var list := resp[..off];
    sent := Finish(resp, off, Trailer(truncated));
    w := written;
    SentIs(list, sent, "hops", HopItems(hops), w, off, HOPS_REPLY_SIZE - TAIL_RESERVE, truncated);
    if AllPrinted(Edges(hops)) {
      HopsOneLine(sent, hops, w, truncated);
    }
  }

  // ---- Hits are never cut ----

  /** What the types of a hit allow: 64-bit ids, 32-bit lines, and a float as `%.6f` prints it. */
  predicate InRange(h: Row) {
    h.HitRow? && h.id < 0x1_0000_0000_0000_0000 && h.startLine < 0x1_0000_0000 && h.endLine < 0x1_0000_0000 && |h.score| <= 47
  }

  lemma DecWidth(n: nat)
    requires n < 0x1_0000_0000_0000_0000
    ensures |Dec(n)| <= 20 && (n < 0x1_0000_0000 ==> |Dec(n)| <= 10)
  {
    assert Pow10(5) == 100000;
    assert Pow10(10) == 100000 * Pow10(5);
    assert Pow10(15) == 100000 * Pow10(10);
    assert Pow10(20) == 100000 * Pow10(15);
    DecLength(n, 20);
    if n < 0x1_0000_0000 {
      DecLength(n, 10);
    }
  }

  /** The bytes a list of members takes, its commas counted one more than there are. */
  function Width(fs: seq<Field>): nat {
    if fs == [] then 0 else |FieldText(fs[0])| + 1 + Width(fs[1..])
  }

  lemma {:induction false} FieldsWidth(fs: seq<Field>)
    requires fs != []
    ensures |FieldsText(fs)| + 1 == Width(fs)
  {
    if |fs| > 1 {
      FieldsWidth(fs[1..]);
    }
  }

  lemma {:induction false} WidthJoin(a: seq<Field>, b: seq<Field>)
    ensures Width(a + b) == Width(a) + Width(b)
  {
    if a == [] {
      NoTail(b);
    } else {
      assert (a + b)[1..] == a[1..] + b;
      WidthJoin(a[1..], b);
    }
  }

  lemma ThreeWidth(a: Field, b: Field, c: Field)
    ensures Width([a, b, c]) == |FieldText(a)| + |FieldText(b)| + |FieldText(c)| + 3
  {
    assert [a, b, c][1..] == [b, c] && [b, c][1..] == [c] && [c][1..] == [];
    assert Width([b, c]) == |FieldText(b)| + 1 + Width([c]);
  }

  lemma NumWidth(key: string, n: nat)
    requires n < 0x1_0000_0000_0000_0000
    ensures |FieldText(Num(key, n))| <= |key| + 3 + (if n < 0x1_0000_0000 then 10 else 20)
  {
    DecWidth(n);
  }

  lemma TextWidth(key: string, s: string, cap: nat)
    requires cap > 0
    ensures |FieldText(Text(key, s, cap))| <= |key| + 5 + cap - 1
  {
    FitIsShort(CutAtZero(s), 0, cap);
  }

  /** Every hit takes less than the bytes set aside for one, its comma included. */
  lemma HitWidth(h: Row)
    requires InRange(h)
    ensures |ObjectText(RowFields(h))| < HIT_JSON_MAX
  {
    var fs := RowFields(h);
    NumWidth("id", h.id);
    TextWidth("repo", h.repo, ESC_REPO);
    TextWidth("path", h.path, ESC_PATH);
    TextWidth("symbol", h.symbol, ESC_SYMBOL);
    TextWidth("kind", h.kind, ESC_KIND);
    NumWidth("start_line", h.startLine);
    NumWidth("end_line", h.endLine);
    TextWidth("snippet", h.snippet, ESC_SNIPPET);
    FieldsWidth(fs);
    ThreeWidth(fs[0], fs[1], fs[2]);
    ThreeWidth(fs[3], fs[4], fs[5]);
    ThreeWidth(fs[6], fs[7], fs[8]);
    WidthJoin([fs[0], fs[1], fs[2]], [fs[3], fs[4], fs[5]]);
    WidthJoin([fs[0], fs[1], fs[2]] + [fs[3], fs[4], fs[5]], [fs[6], fs[7], fs[8]]);
    assert fs == [fs[0], fs[1], fs[2]] + [fs[3], fs[4], fs[5]] + [fs[6], fs[7], fs[8]];
  }

  /** With that many bytes for each item, all of them fit. */
  lemma {:induction false} AllFit(items: seq<seq<Field>>, i: nat, off: nat, cap: nat)
    requires i <= |items| && forall j :: 0 <= j < |items| ==> |ObjectText(items[j])| < HIT_JSON_MAX
    requires off + (|items| - i) * HIT_JSON_MAX < cap
    ensures Fitting(items, i, off, cap) == |items| - i
    decreases |items| - i
  {
    if i < |items| {
      AllFit(items, i + 1, off + (if i > 0 then 1 else 0) + |ObjectText(items[i])|, cap);
    }
  }

  /** An error reply: `ok` is false, and one member says why. */
  function FailedReply(key: string, text: string): string {
    "{\"ok\":false,\"" + key + "\":\"" + text + "\"}\n"
  }

  lemma ErrorNames()
    ensures SimpleKey("ok") && SimpleKey("error") && SimpleKey("out of memory")
  {}

  lemma FailedIsFine(key: string, text: string)
    requires SimpleKey("ok") && SimpleKey(key) && SimpleKey(text)
    ensures WellFormed(Object([Field("ok", Lit("false")), Field(key, Str(text))]))
  {
    SimpleDecodes("ok");
    SimpleDecodes(key);
    SimpleDecodes(text);
    PairIsFine(Field("ok", Lit("false")), Field(key, Str(text)));
  }

  lemma FailedText(key: string, text: string)
    ensures Line(Object([Field("ok", Lit("false")), Field(key, Str(text))])) == FailedReply(key, text)
  {
    TwoFields(Field("ok", Lit("false")), Field(key, Str(text)));
    assert FieldText(Field("ok", Lit("false"))) == "\"ok\":false";
  }

  lemma FailedIsOneLine(key: string, text: string)
    requires SimpleKey("ok") && SimpleKey(key) && SimpleKey(text)
    ensures OneLine(FailedReply(key, text))
  {
    FailedIsFine(key, text);
    FailedText(key, text);
    ValueHasNoBreak(Object([Field("ok", Lit("false")), Field(key, Str(text))]));
  }

  lemma HitsOneLine(hits: seq<Row>)
    requires AllPrinted(hits)
    ensures OneLine(Line(HitsReply(Values(RowItems(hits)))))
  {
    RowsAreFine(hits, |hits|);
    assert RowItems(hits)[..|hits|] == RowItems(hits);
    HitsReplyIsFine(Values(RowItems(hits)));
    ValueHasNoBreak(HitsReply(Values(RowItems(hits))));
  }

  /** `write_hits_response`: unless memory runs out, every hit is in the reply. */
  method HitsResponse(hits: seq<Row>) returns (sent: string, ok: bool)
    requires forall i :: 0 <= i < |hits| ==> InRange(hits[i])
    ensures ok ==> sent == Line(HitsReply(Values(RowItems(hits))))
    ensures !ok ==> sent == FailedReply("error", "out of memory")
    ensures !ok || AllPrinted(hits) ==> OneLine(sent)
  {
    var size: nat := |hits| * HIT_JSON_MAX + TAIL_RESERVE + 64;
    ok := TryAlloc(size);
    if !ok {
      ErrorNames();
      FailedIsOneLine("error", "out of memory");
      return FailedReply("error", "out of memory"), false;
    }
    var head := Head("results");
    var cap: nat := size - TAIL_RESERVE;
    var resp := StartReply(size, head);
    var w, off := ListRows(resp, cap, head, hits, RowItems(hits));
    ghost var list := resp[..off];
    EveryHit(hits, list, w, off, cap);
    sent := Finish(resp, off, HITS_TRAILER);
    if AllPrinted(hits) {
      HitsOneLine(hits);
    }
  }

  lemma HitsFit(hits: seq<Row>, items: seq<seq<Field>>, off: nat, cap: nat)
    requires Shows(items, hits) && |items| == |hits| && off < 64 && cap == |hits| * HIT_JSON_MAX + 64
    requires forall i :: 0 <= i < |hits| ==> InRange(hits[i])
    ensures Fitting(items, 0, off, cap) == |items|
  {
    assert Peek(0);
    forall j | 0 <= j < |items|
      ensures |ObjectText(items[j])| < HIT_JSON_MAX
    {
      HitWidth(hits[j]);
    }
    AllFit(items, 0, off, cap);
  }

  lemma ListedWhole(list: string, head: string, items: seq<seq<Field>>, w: nat, off: nat, cap: nat)
    requires Listed(list, head, items, w, off, cap) && Full(head, items, w, cap) && Fitting(items, 0, |head|, cap) == |items|
    ensures list == head + ItemsJoined(Values(items))
  {
    assert Look(0);
    assert items[..|items|] == items;
  }

  lemma EveryHit(hits: seq<Row>, list: string, w: nat, off: nat, cap: nat)
    requires cap == |hits| * HIT_JSON_MAX + 64 && forall i :: 0 <= i < |hits| ==> InRange(hits[i])
    requires Listed(list, Head("results"), RowItems(hits), w, off, cap) && Full(Head("results"), RowItems(hits), w, cap)
    ensures list + HITS_TRAILER == Line(HitsReply(Values(RowItems(hits))))
  {
    var items, head := RowItems(hits), Head("results");
    HitsFit(hits, items, |head|, cap);
    ListedWhole(list, head, items, w, off, cap);
    HitsText(Values(items));
  }
}
