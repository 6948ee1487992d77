/**
 The embedding worker's request stream: `cberg_worker_embed` writes batches, the worker's loop reads
 them back. With a task-aware backend the top bit of the count says that a batch is a query; existing
 backends only ever see a count.
 */
module WorkerProtocol {
  import opened Common
  import opened Snapshots

  const QUERY_BIT: nat := 0x8000_0000

  const UINT32_LIMIT: nat := 0x1_0000_0000

  datatype Batch = Batch(query: bool, texts: seq<Bytes>)

  /** The largest count a batch may have. */
  function CountMax(task: bool): nat {
    if task then QUERY_BIT - 1 else UINT32_LIMIT - 1
  }

  /** The header word: the count, and for a task-aware backend the query bit above it. */
  function HeaderOf(b: Batch, task: bool): nat {
    |b.texts| + if task && b.query then QUERY_BIT else 0
  }

  function TextFrame(t: Bytes): Bytes {
    PutInt(|t|, 4) + t
  }

  function TextFrames(ts: seq<Bytes>): Bytes {
    if ts == [] then [] else TextFrame(ts[0]) + TextFrames(ts[1..])
  }

  function Frame(b: Batch, task: bool): Bytes {
    PutInt(HeaderOf(b, task), 4) + TextFrames(b.texts)
  }

  /** What the writer does not refuse: the count and every length fit their words. */
  ghost predicate Fits(b: Batch, task: bool) {
    |b.texts| <= CountMax(task) && forall i :: 0 <= i < |b.texts| ==> |b.texts[i]| < UINT32_LIMIT
  }

  function Stream(bs: seq<Batch>, task: bool): Bytes {
    if bs == [] then [] else Frame(bs[0], task) + Stream(bs[1..], task)
  }

  // ---- Reading ----

  function CountIn(header: nat, task: bool): nat {
    if task && header >= QUERY_BIT then header - QUERY_BIT else header
  }

  function QueryIn(header: nat, task: bool): bool {
    task && header >= QUERY_BIT
  }

  function GetText(s: Bytes): Read<Bytes> {
    var len := GetInt(s, 4);
    if len.Short? then Short else GetBytes(len.rest, len.value)
  }

  function GetTexts(s: Bytes, n: nat): (r: Read<seq<Bytes>>)
    ensures r.Got? ==> |r.value| == n && |r.rest| <= |s|
    decreases n
  {
    if n == 0 then Got([], s)
    else
      var t := GetText(s);
      if t.Short? then Short
      else
        var more := GetTexts(t.rest, n - 1);
        if more.Short? then Short else Got([t.value] + more.value, more.rest)
  }

  function GetBatch(s: Bytes, task: bool): (r: Read<Batch>)
    ensures r.Got? ==> |r.rest| < |s|
  {
    var header := GetInt(s, 4);
    if header.Short? then Short
    else
      var texts := GetTexts(header.rest, CountIn(header.value, task));
      if texts.Short? then Short else Got(Batch(QueryIn(header.value, task), texts.value), texts.rest)
  }

  /** Every batch until the stream ends between batches; None if it ends inside one. */
  function Parse(s: Bytes, task: bool): Option<seq<Batch>>
    decreases |s|
  {
    if s == [] then Some([])
    else
      var b := GetBatch(s, task);
      if b.Short? then None
      else
        var rest := Parse(b.rest, task);
        if rest.None? then None else Some([b.value] + rest.value)
  }

  // ---- What is read is what was written ----

  /** What the worker can know of a batch: an existing backend is never told of a query. */
  function Seen(b: Batch, task: bool): Batch {
    Batch(task && b.query, b.texts)
  }

  function AllSeen(bs: seq<Batch>, task: bool): seq<Batch> {
    if bs == [] then [] else [Seen(bs[0], task)] + AllSeen(bs[1..], task)
  }

  /** The query bit never meets the count: both come back from the header, which fits its word. */
  lemma HeaderRoundTrip(b: Batch, task: bool)
    requires |b.texts| <= CountMax(task)
    ensures CountMax(task) == if task then 0x7FFF_FFFF else 0xFFFF_FFFF
    ensures HeaderOf(b, task) == |b.texts| + if task && b.query then 0x8000_0000 else 0
    ensures HeaderOf(b, task) < 0x1_0000_0000 && CountIn(HeaderOf(b, task), task) == |b.texts|
    ensures QueryIn(HeaderOf(b, task), task) == (task && b.query)
  {}

  lemma GetPutText(t: Bytes, rest: Bytes)
    requires |t| < UINT32_LIMIT
    ensures GetText(TextFrame(t) + rest) == Got(t, rest)
  {
    Pow256Values();
    Regroup(PutInt(|t|, 4), t, rest);
    GetPutInt(|t|, 4, t + rest);
    GetBytesPut(t, rest);
  }

  lemma {:induction false} GetPutTexts(ts: seq<Bytes>, rest: Bytes)
    requires forall i :: 0 <= i < |ts| ==> |ts[i]| < UINT32_LIMIT
    ensures GetTexts(TextFrames(ts) + rest, |ts|) == Got(ts, rest)
  {
    if ts == [] {
      NoTail(rest);
    } else {
      var t, more := ts[0], ts[1..];
      assert ts == [t] + more;
      Regroup(TextFrame(t), TextFrames(more), rest);
      GetPutText(t, TextFrames(more) + rest);
      GetPutTexts(more, rest);
      OneMoreText(TextFrame(t) + (TextFrames(more) + rest), t, TextFrames(more) + rest, more, rest);
    }
  }

  lemma OneMoreText(s: Bytes, t: Bytes, after: Bytes, ts: seq<Bytes>, rest: Bytes)
    requires GetText(s) == Got(t, after) && GetTexts(after, |ts|) == Got(ts, rest)
    ensures GetTexts(s, |ts| + 1) == Got([t] + ts, rest)
  {}

  lemma GetPutBatch(b: Batch, task: bool, rest: Bytes)
    requires Fits(b, task)
    ensures GetBatch(Frame(b, task) + rest, task) == Got(Seen(b, task), rest)
  {
    Pow256Values();
    HeaderRoundTrip(b, task);
    Regroup(PutInt(HeaderOf(b, task), 4), TextFrames(b.texts), rest);
    GetPutInt(HeaderOf(b, task), 4, TextFrames(b.texts) + rest);
    GetPutTexts(b.texts, rest);
  }

  /** A request on the wire: four bytes of header, then each text after the four bytes of its length. */
  lemma FrameLayout(b: Batch, task: bool, frame: Bytes, i: nat)
    requires Fits(b, task) && frame == Frame(b, task)
    ensures At4(frame, 0, |b.texts| + if task && b.query then 0x8000_0000 else 0) && |frame| >= 4 && frame[4..] == TextFrames(b.texts)
    ensures i < |b.texts| ==> At4(TextFrame(b.texts[i]), 0, |b.texts[i]|) && TextFrame(b.texts[i])[4..] == b.texts[i]
    ensures TextFrames(b.texts) == if b.texts == [] then [] else TextFrame(b.texts[0]) + TextFrames(b.texts[1..])
  {
    HeaderRoundTrip(b, task);
    NoTail(frame);
    FourBytes(HeaderOf(b, task), [], TextFrames(b.texts), frame, 0);
    if i < |b.texts| {
      NoTail(TextFrame(b.texts[i]));
      FourBytes(|b.texts[i]|, [], b.texts[i], TextFrame(b.texts[i]), 0);
    }
  }

  /** Any sequence of accepted batches is read back batch by batch: query flag, count and texts, in order. */
  lemma {:induction false} ParseStream(bs: seq<Batch>, task: bool)
    requires forall i :: 0 <= i < |bs| ==> Fits(bs[i], task)
    ensures Parse(Stream(bs, task), task) == Some(AllSeen(bs, task))
  {
    if bs != [] {
      GetPutBatch(bs[0], task, Stream(bs[1..], task));
      ParseStream(bs[1..], task);
    }
  }

  // ---- The writer ----

  /** The child's standard input, as the bytes written so far. */
  class Pipe {
    var data: Bytes

    constructor ()
      ensures data == []
    {
      data := [];
    }

    /** `fwrite`: all of it, or some front of it and a failure. */
    method Write(b: Bytes) returns (ok: bool)
      modifies this
      ensures old(data) <= data <= old(data) + b
      ensures ok ==> data == old(data) + b
    {
      ok := *;
      var n: nat := *;
      if ok {
        data := data + b;
      } else if 0 <= n <= |b| {
        assert b == b[..n] + b[n..];
        data := data + b[..n];
      }
    }
  }

  lemma TextFramesSnoc(ts: seq<Bytes>, t: Bytes)
    ensures TextFrames(ts + [t]) == TextFrames(ts) + TextFrame(t)
  {
    if ts == [] {
      assert ts + [t] == [t] && [t][1..] == [];
      NoTail(TextFrame(t));
    } else {
      assert (ts + [t])[0] == ts[0] && (ts + [t])[1..] == ts[1..] + [t];
      TextFramesSnoc(ts[1..], t);
      Regroup(TextFrame(ts[0]), TextFrames(ts[1..]), TextFrame(t));
    }
  }

  /** One text of a request: its length, then its bytes. */
  method WriteText(pipe: Pipe, t: Bytes) returns (ok: bool)
    requires |t| < UINT32_LIMIT
    modifies pipe
    ensures old(pipe.data) <= pipe.data
    ensures ok ==> pipe.data == old(pipe.data) + TextFrame(t)
  {
    ok := pipe.Write(PutInt(|t|, 4));
    if ok {
      Regroup(old(pipe.data), PutInt(|t|, 4), t);
      ok := pipe.Write(t);
    }
  }

  /**
   The request half of `cberg_worker_embed`: on success exactly one frame has been written. A count that does
   not fit is refused before anything is; a text that does not fit, only when its turn comes.
   */
  method WriteRequest(pipe: Pipe, b: Batch, task: bool) returns (st: Status)
    modifies pipe
    ensures old(pipe.data) <= pipe.data && (st == Ok || st == Io || st == InvalidArgument)
    ensures st == Ok ==> Fits(b, task) && pipe.data == old(pipe.data) + Frame(b, task)
    ensures |b.texts| > CountMax(task) ==> st == InvalidArgument && pipe.data == old(pipe.data)
    ensures st == InvalidArgument ==> !Fits(b, task)
  {
    if |b.texts| > CountMax(task) {
      return InvalidArgument;
    }
    var n := |b.texts| + if task && b.query then QUERY_BIT else 0;
    var ok := pipe.Write(PutInt(n, 4));
    if !ok {
      return Io;
    }
    ghost var front := old(pipe.data) + PutInt(HeaderOf(b, task), 4);
    NoTail(front);
    for i := 0 to |b.texts|
      invariant pipe.data == front + TextFrames(b.texts[..i])
      invariant forall j :: 0 <= j < i ==> |b.texts[j]| < UINT32_LIMIT
    {
      if |b.texts[i]| >= UINT32_LIMIT {
        return InvalidArgument;
      }
      LastStep(b.texts, i);
      TextFramesSnoc(b.texts[..i], b.texts[i]);
      Regroup(front, TextFrames(b.texts[..i]), TextFrame(b.texts[i]));
      ok := WriteText(pipe, b.texts[i]);
      if !ok {
        return Io;
      }
    }
    assert b.texts[..|b.texts|] == b.texts;
    Regroup(old(pipe.data), PutInt(HeaderOf(b, task), 4), TextFrames(b.texts));
    st := Ok;
  }

  // ---- The reader ----

  /** The worker's standard input, as the bytes not read yet. */
  class Input {
    var rest: Bytes

    constructor (rest: Bytes)
      ensures this.rest == rest
    {
      this.rest := rest;
    }

    /** One `read` for up to `n` bytes: at least one, unless the stream has ended. */
    method ReadSome(n: nat) returns (block: Bytes)
      requires n > 0
      modifies this
      ensures |block| <= n && old(rest) == block + rest
      ensures block == [] ==> old(rest) == []
    {
      var k: nat := *;
      if k <= 0 || k > n || k > |rest| {
        k := if n <= |rest| then n else |rest|;
      }
      block, rest := rest[..k], rest[k..];
    }

    /** `read_exact`: `n` bytes however the blocks fall, or the end of input. */
    method ReadExact(n: nat) returns (data: Option<Bytes>)
      modifies this
      ensures data.Some? <==> n <= |old(rest)|
      ensures data.Some? ==> GetBytes(old(rest), n) == Got(data.value, rest)
    {
      var got: Bytes := [];
      NoTail(rest);
      while |got| < n
        invariant |got| <= n && old(rest) == got + rest
        decreases n - |got|
      {
        var block := ReadSome(n - |got|);
        if |block| == 0 {
          return None;
        }
        Regroup(got, block, rest);
        got := got + block;
      }
      GetBytesPut(got, rest);
      data := Some(got);
    }

    /** The texts of one batch. */
    method ReadTexts(n: nat) returns (texts: Option<seq<Bytes>>)
      modifies this
      ensures texts.Some? <==> GetTexts(old(rest), n).Got?
      ensures texts.Some? ==> GetTexts(old(rest), n) == Got(texts.value, rest)
    {
      var got: seq<Bytes> := [];
      AfterNone(GetTexts(rest, n));
      for i := 0 to n
        invariant GetTexts(old(rest), n) == AfterTexts(got, GetTexts(rest, n - i))
      {
        ghost var before := rest;
        var len := ReadExact(4);
        if len.None? {
          return None;
        }
        var text := ReadExact(IntOf(len.value));
        if text.None? {
          return None;
        }
        assert GetText(before) == Got(text.value, rest);
        AfterOne(got, text.value, GetTexts(rest, n - i - 1));
        got := got + [text.value];
      }
      NoTail(got);
      texts := Some(got);
    }

    /** The request loop of the worker's `main`: the batches it hands to the model, and whether the stream ended between batches. */
    method ReadAll(task: bool) returns (batches: seq<Batch>, clean: bool)
      modifies this
      ensures clean <==> Parse(old(rest), task).Some?
      ensures clean ==> Parse(old(rest), task) == Some(batches)
    {
      batches := [];
      AfterNoBatch(Parse(rest, task));
      while |rest| > 0
        invariant Parse(old(rest), task) == AfterBatches(batches, Parse(rest, task))
        decreases |rest|
      {
        ghost var before := rest;
        var header := ReadExact(4);
        if header.None? {
          return batches, false;
        }
        var word := IntOf(header.value);
        var query := task && word >= QUERY_BIT;
        var count := if task && word >= QUERY_BIT then word - QUERY_BIT else word;
        var texts := ReadTexts(count);
        if texts.None? {
          return batches, false;
        }
        assert GetBatch(before, task) == Got(Batch(query, texts.value), rest);
        AfterOneBatch(batches, Batch(query, texts.value), Parse(rest, task));
        batches := batches + [Batch(query, texts.value)];
      }
      NoTail(batches);
      clean := true;
    }
  }

  /** A read that continues what has been read so far. */
  function AfterTexts(got: seq<Bytes>, r: Read<seq<Bytes>>): Read<seq<Bytes>> {
    if r.Short? then Short else Got(got + r.value, r.rest)
  }

  lemma AfterNone(r: Read<seq<Bytes>>)
    ensures AfterTexts([], r) == r
  {
    if r.Got? {
      NoTail(r.value);
    }
  }

  lemma AfterOne(got: seq<Bytes>, t: Bytes, r: Read<seq<Bytes>>)
    ensures AfterTexts(got, if r.Short? then Short else Got([t] + r.value, r.rest)) == AfterTexts(got + [t], r)
  {
    if r.Got? {
      Regroup(got, [t], r.value);
    }
  }

  function AfterBatches(got: seq<Batch>, r: Option<seq<Batch>>): Option<seq<Batch>> {
    if r.None? then None else Some(got + r.value)
  }

  lemma AfterNoBatch(r: Option<seq<Batch>>)
    ensures AfterBatches([], r) == r
  {
    if r.Some? {
      NoTail(r.value);
    }
  }

  lemma AfterOneBatch(got: seq<Batch>, b: Batch, r: Option<seq<Batch>>)
    ensures AfterBatches(got, if r.None? then None else Some([b] + r.value)) == AfterBatches(got + [b], r)
  {
    if r.Some? {
      Regroup(got, [b], r.value);
    }
  }
}
