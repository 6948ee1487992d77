/**
 `cberg_onnx_embed`: tokenise, sort by length, run length-homogeneous groups, and scatter the
 vectors back. Inference is one opaque function of a row's unpadded tokens, and everything the
 code adds around it -- the counting sort, padding, groups, the scatter -- must not show.
 */
module OnnxEmbed {
  import opened Common
  import opened Scatter

  const MAX_SEQ: nat := 256

  const MAX_BATCH: nat := 1024

  /** One more than the largest key of the counting sort. */
  const KEYS: nat := MAX_SEQ + 1

  /** `sort_indices_by_len`: a counting sort whose result is the stable order by length. */
  method SortIndicesByLen(seqLens: array<nat>, order: array<nat>)
    requires order.Length == seqLens.Length && order != seqLens && KeysBelow(seqLens[..], KEYS)
    modifies order
    ensures Scattered(order[..], seqLens[..], KEYS)
  {
    ghost var keys := seqLens[..];
    var counts := new nat[KEYS](_ => 0);
    assert CountsFrom(counts[..], keys, 0, 0) by {
      assert forall k :: 0 <= k < |counts[..]| ==> CountIs(counts[..], keys, 0, k);
    }
    for i := 0 to seqLens.Length
      invariant seqLens[..] == keys && CountsFrom(counts[..], keys, i, 0)
    {
      CountOne(counts[..], keys, i);
      ghost var c := counts[..];
      counts[seqLens[i]] := counts[seqLens[i]] + 1;
      assert counts[..] == c[keys[i] := c[keys[i]] + 1];
    }
    var acc := 0;
    for len := 0 to KEYS
      invariant seqLens[..] == keys && acc == Start(keys, len)
      invariant CursorsBelow(counts[..], keys, 0, len) && CountsFrom(counts[..], keys, |keys|, len)
    {
      PrefixOne(counts[..], keys, len);
      ghost var before := counts[..];
      var c := counts[len];
      counts[len] := acc;
      acc := acc + c;
      assert counts[..] == before[len := Start(keys, len)];
    }
    assert AllPlaced(order[..], keys, 0, KEYS) by {
      forall k {:trigger Placed(order[..], keys, 0, k)} | 0 <= k < KEYS
        ensures Placed(order[..], keys, 0, k)
      {
        StartWithin(keys, KEYS, k);
      }
    }
    for i := 0 to seqLens.Length
      invariant seqLens[..] == keys && CursorsBelow(counts[..], keys, i, KEYS)
      invariant AllPlaced(order[..], keys, i, KEYS)
    {
      PlaceOne(order[..], keys, i, KEYS);
      CursorOne(counts[..], keys, i);
      ghost var c, o := counts[..], order[..];
      var k := seqLens[i];
      assert CursorIs(c, keys, i, k);
      order[counts[k]] := i;
      counts[k] := counts[k] + 1;
      assert order[..] == o[c[k] := i] && counts[..] == c[k := c[k] + 1];
    }
  }

  /** `cberg_tok_encode` keeps a long text's first tokens and its very last one. */
  function Clip(ids: seq<int>): (r: seq<int>)
    ensures |ids| <= 256 ==> r == ids
    ensures |ids| > 256 ==> |r| == 256 && r[..255] == ids[..255] && r[255] == ids[|ids| - 1]
  {
    if |ids| <= MAX_SEQ then ids else ids[..MAX_SEQ - 1] + [ids[|ids| - 1]]
  }

  /** Row `b` of the padded tensors holds exactly the tokens `toks`: their ids under a mask of ones, zeros after. */
  ghost predicate Padded(ids: array2<int>, mask: array2<int>, b: nat, toks: seq<int>)
    requires ids.Length0 == mask.Length0 && ids.Length1 == mask.Length1 && b < ids.Length0
    reads ids, mask
  {
    && |toks| <= ids.Length1
    && forall s :: 0 <= s < ids.Length1 ==>
         && ids[b, s] == (if s < |toks| then toks[s] else 0)
         && mask[b, s] == (if s < |toks| then 1 else 0)
  }

  /** The slot that position `p` of the order names holds its own row's vector. */
  ghost predicate Has(out: seq<Vec>, order: seq<nat>, toks: seq<seq<int>>, infer: seq<int> -> Vec, p: nat) {
    && p < |order| && order[p] < |out| && order[p] < |toks|
    && out[order[p]] == infer(toks[order[p]])
  }

  ghost predicate Delivered(out: seq<Vec>, order: seq<nat>, toks: seq<seq<int>>, infer: seq<int> -> Vec, from: nat, to: nat) {
    forall p {:trigger Has(out, order, toks, infer, p)} :: from <= p < to ==> Has(out, order, toks, infer, p)
  }

  lemma DeliverOne(out: seq<Vec>, order: seq<nat>, toks: seq<seq<int>>, infer: seq<int> -> Vec, n: nat)
    requires n < |order| && order[n] < |out| == |toks| && Delivered(out, order, toks, infer, 0, n)
    ensures Delivered(out[order[n] := infer(toks[order[n]])], order, toks, infer, 0, n + 1)
  {
    var out' := out[order[n] := infer(toks[order[n]])];
    forall p {:trigger Has(out', order, toks, infer, p)} | 0 <= p < n + 1
      ensures Has(out', order, toks, infer, p)
    {
      assert p < n ==> Has(out, order, toks, infer, p);
    }
  }

  class OnnxModel {
    /** The tokeniser; None where it fails. */
    const tokenize: string -> Option<seq<int>>
    /** The pooled, normalised output for one row, whatever shares its batch. */
    const infer: seq<int> -> Vec
    const batch: nat

    ghost predicate Valid() {
      1 <= batch <= MAX_BATCH
    }

    /** `batch_from_env`'s range check stands behind `batch`. */
    constructor (tokenize: string -> Option<seq<int>>, infer: seq<int> -> Vec, batch: nat)
      requires 1 <= batch <= MAX_BATCH
      ensures Valid() && this.tokenize == tokenize && this.infer == infer && this.batch == batch
    {
      this.tokenize, this.infer, this.batch := tokenize, infer, batch;
    }

    /** `run_inference`: it may fail; when it does not, row `b` depends on its unpadded tokens only. */
    method RunInference(ids: array2<int>, mask: array2<int>, lens: array<nat>, out: array<Vec>, ghost toks: seq<seq<int>>) returns (st: Status)
      requires ids.Length0 == mask.Length0 == lens.Length == out.Length == |toks| && ids.Length1 == mask.Length1 && ids.Length1 > 0
      requires forall b :: 0 <= b < |toks| ==> lens[b] == |toks[b]| && Padded(ids, mask, b, toks[b])
      modifies out
      ensures st == Ok ==> forall b :: 0 <= b < |toks| ==> out[b] == infer(toks[b])
    {
      st := Outcome();
      if st != Ok {
        return;
      }
      for b := 0 to out.Length
        invariant forall c :: 0 <= c < b ==> out[c] == infer(toks[c])
      {
        var row := seq(lens[b], s requires 0 <= s < lens[b] && lens[b] <= ids.Length1 reads ids, lens => ids[b, s]);
        assert row == toks[b];
        out[b] := infer(row);
      }
    }

    /** `run_group`: the padded tensors of one group, inference, and the scatter back to the callers' slots. */
    method RunGroup(tokbuf: array2<int>, seqLens: array<nat>, order: array<nat>, gStart: nat, gCount: nat, out: array<Vec>, ghost toks: seq<seq<int>>)
      returns (st: Status)
      requires Tokenized(tokbuf, seqLens, toks, |toks|)
      requires 0 < gCount && gStart + gCount <= order.Length && out.Length == |toks|
      requires forall p :: 0 <= p < order.Length ==> order[p] < |toks|
      modifies out
      ensures st == Ok && Delivered(old(out[..]), order[..], toks, infer, 0, gStart) ==> Delivered(out[..], order[..], toks, infer, 0, gStart + gCount)
    {
      var maxLen := LongestOf(seqLens, order, gStart, gCount);
      if maxLen == 0 {
        maxLen := 1;
      }
      var ok := TryAlloc(gCount);
      if !ok {
        return OutOfMemory;
      }
      ghost var mine := RowsOf(toks, order[..], gStart, gCount);
      var ids := new int[gCount, maxLen]((_, _) => 0);
      var mask := new int[gCount, maxLen]((_, _) => 0);
      var pooled := new Vec[gCount];
      var glens := new nat[gCount];
      FillGroup(tokbuf, seqLens, order, gStart, gCount, ids, mask, glens, toks, mine);
      st := RunInference(ids, mask, glens, pooled, mine);
      if st != Ok {
        return;
      }
      ScatterBack(order, gStart, gCount, pooled, out, toks);
    }

    /** The last loop of `run_group`. */
    method ScatterBack(order: array<nat>, gStart: nat, gCount: nat, pooled: array<Vec>, out: array<Vec>, ghost toks: seq<seq<int>>)
      requires gStart + gCount <= order.Length && out.Length == |toks| && pooled != out && pooled.Length == gCount
      requires forall p :: 0 <= p < order.Length ==> order[p] < |toks|
      requires forall b :: 0 <= b < gCount ==> pooled[b] == infer(toks[order[gStart + b]])
      modifies out
      ensures Delivered(old(out[..]), order[..], toks, infer, 0, gStart) ==> Delivered(out[..], order[..], toks, infer, 0, gStart + gCount)
    {
      ghost var o := order[..];
      for b := 0 to gCount
        invariant Delivered(old(out[..]), o, toks, infer, 0, gStart) ==> Delivered(out[..], o, toks, infer, 0, gStart + b)
      {
        ghost var before := out[..];
        out[order[gStart + b]] := pooled[b];
        assert out[..] == before[o[gStart + b] := infer(toks[o[gStart + b]])];
        if Delivered(before, o, toks, infer, 0, gStart + b) {
          DeliverOne(before, o, toks, infer, gStart + b);
        }
      }
    }

    /** `cberg_onnx_embed`: each caller slot gets its own text's vector, whatever the batch size and the lengths. */
    method Embed(texts: seq<string>, out: array<Vec>) returns (st: Status)
      requires Valid() && out.Length == |texts|
      modifies out
      ensures st == Ok ==> forall i :: 0 <= i < |texts| ==> tokenize(texts[i]).Some? && out[i] == infer(Clip(tokenize(texts[i]).value))
    {
      if |texts| == 0 {
        return Ok;
      }
      var ok := TryAlloc(|texts| * MAX_SEQ);
      if !ok {
        return OutOfMemory;
      }
      var tokbuf := new int[|texts|, MAX_SEQ];
      var seqLens := new nat[|texts|];
      var order := new nat[|texts|];
      ghost var toks;
      st, toks := TokenizeAll(texts, tokbuf, seqLens);
      if st != Ok {
        return;
      }
      SortIndicesByLen(seqLens, order);
      ScatteredIsPermutation(order[..], seqLens[..], KEYS);
      forall p | 0 <= p < order.Length
        ensures order[p] < |texts|
      {
        OnceIn(order[..], 0, |texts|, p);
      }
      st := RunGroups(tokbuf, seqLens, order, out, toks);
      if st == Ok {
        forall i | 0 <= i < |texts|
          ensures out[i] == infer(toks[i])
        {
          var p := EveryItem(order[..], 0, |texts|, i);
          assert Has(out[..], order[..], toks, infer, p);
        }
      }
    }

    /** The group loop of `cberg_onnx_embed`: groups of at most `batch` rows tile the order. */
    method RunGroups(tokbuf: array2<int>, seqLens: array<nat>, order: array<nat>, out: array<Vec>, ghost toks: seq<seq<int>>) returns (st: Status)
      requires Valid() && Tokenized(tokbuf, seqLens, toks, |toks|) && out.Length == order.Length == |toks|
      requires forall p :: 0 <= p < order.Length ==> order[p] < |toks|
      modifies out
      ensures st == Ok ==> Delivered(out[..], order[..], toks, infer, 0, |toks|)
    {
      var g := 0;
      while g < order.Length
        invariant g <= order.Length && Delivered(out[..], order[..], toks, infer, 0, g)
      {
        var gc := order.Length - g;
        if gc > batch {
          gc := batch;
        }
        st := RunGroup(tokbuf, seqLens, order, g, gc, out, toks);
        if st != Ok {
          return;
        }
        g := g + gc;
      }
      st := Ok;
    }

    /** The tokenising loop of `cberg_onnx_embed`. */
    method TokenizeAll(texts: seq<string>, tokbuf: array2<int>, seqLens: array<nat>) returns (st: Status, ghost toks: seq<seq<int>>)
      requires tokbuf.Length0 == seqLens.Length == |texts| && tokbuf.Length1 == MAX_SEQ
      modifies tokbuf, seqLens
      ensures st == Ok ==> |toks| == |texts| && Tokenized(tokbuf, seqLens, toks, |toks|) && KeysBelow(seqLens[..], KEYS)
      ensures st == Ok ==> forall i :: 0 <= i < |texts| ==> tokenize(texts[i]).Some? && toks[i] == Clip(tokenize(texts[i]).value)
    {
      toks := [];
      for i := 0 to |texts|
        invariant |toks| == i && Tokenized(tokbuf, seqLens, toks, i)
        invariant forall j :: 0 <= j < i ==> tokenize(texts[j]).Some? && toks[j] == Clip(tokenize(texts[j]).value)
      {
        var r := tokenize(texts[i]);
        if r.None? {
          return Internal, toks;
        }
        var t := Clip(r.value);
        forall s | 0 <= s < |t| {
          tokbuf[i, s] := t[s];
        }
        seqLens[i] := |t|;
        toks := toks + [t];
      }
      return Ok, toks;
    }
  }

  /** The first `n` rows of the token buffer hold the tokens `toks`. */
  ghost predicate Tokenized(tokbuf: array2<int>, seqLens: array<nat>, toks: seq<seq<int>>, n: nat)
    reads tokbuf, seqLens
  {
    && n <= |toks| <= tokbuf.Length0 && seqLens.Length == tokbuf.Length0 && tokbuf.Length1 == MAX_SEQ
    && (forall i :: 0 <= i < n ==> seqLens[i] == |toks[i]| <= MAX_SEQ)
    && forall i, s :: 0 <= i < n && 0 <= s < |toks[i]| ==> s < MAX_SEQ && tokbuf[i, s] == toks[i][s]
  }

  /** The token rows of one group. */
  ghost function RowsOf(toks: seq<seq<int>>, order: seq<nat>, gStart: nat, gCount: nat): (r: seq<seq<int>>)
    requires gStart + gCount <= |order| && forall p :: 0 <= p < |order| ==> order[p] < |toks|
    ensures |r| == gCount && forall b :: 0 <= b < gCount ==> r[b] == toks[order[gStart + b]]
  {
    seq(gCount, b requires 0 <= b < gCount => toks[order[gStart + b]])
  }

  /** The first loop of `run_group`. */
  method LongestOf(seqLens: array<nat>, order: array<nat>, gStart: nat, gCount: nat) returns (maxLen: nat)
    requires gStart + gCount <= order.Length && forall p :: 0 <= p < order.Length ==> order[p] < seqLens.Length
    ensures forall p :: gStart <= p < gStart + gCount ==> seqLens[order[p]] <= maxLen
    ensures maxLen == 0 || exists p :: gStart <= p < gStart + gCount && seqLens[order[p]] == maxLen
  {
    maxLen := 0;
    for b := 0 to gCount
      invariant forall p :: gStart <= p < gStart + b ==> seqLens[order[p]] <= maxLen
      invariant maxLen == 0 || exists p :: gStart <= p < gStart + b && seqLens[order[p]] == maxLen
    {
      var n := seqLens[order[gStart + b]];
      if n > maxLen {
        maxLen := n;
      }
    }
  }

  /** The copying loop of `run_group`: tensors that start as zeros end as the group's padded rows. */
  method FillGroup(tokbuf: array2<int>, seqLens: array<nat>, order: array<nat>, gStart: nat, gCount: nat, ids: array2<int>, mask: array2<int>, glens: array<nat>,
                   ghost toks: seq<seq<int>>, ghost mine: seq<seq<int>>)
    requires Tokenized(tokbuf, seqLens, toks, |toks|)
    requires ids != mask && ids != tokbuf && mask != tokbuf && glens != seqLens && glens != order
    requires ids.Length0 == mask.Length0 == glens.Length == |mine| == gCount && ids.Length1 == mask.Length1 && gStart + |mine| <= order.Length
    requires (forall p :: 0 <= p < order.Length ==> order[p] < |toks|) && mine == RowsOf(toks, order[..], gStart, gCount)
    requires forall b :: 0 <= b < |mine| ==> |mine[b]| <= ids.Length1
    requires forall b, s :: 0 <= b < ids.Length0 && 0 <= s < ids.Length1 ==> ids[b, s] == 0 && mask[b, s] == 0
    modifies ids, mask, glens
    ensures forall b :: 0 <= b < |mine| ==> glens[b] == |mine[b]| && Padded(ids, mask, b, mine[b])
  {
    for b := 0 to gCount
      invariant forall c :: 0 <= c < b ==> glens[c] == |mine[c]| && Padded(ids, mask, c, mine[c])
      invariant forall c, s :: b <= c < ids.Length0 && 0 <= s < ids.Length1 ==> ids[c, s] == 0 && mask[c, s] == 0
    {
      var idx := order[gStart + b];
      assert idx < |toks| && mine[b] == toks[idx];
      var n := seqLens[idx];
      glens[b] := n;
      for s := 0 to n
        invariant glens[b] == n == |mine[b]|
        invariant forall c :: 0 <= c < b ==> glens[c] == |mine[c]| && Padded(ids, mask, c, mine[c])
        invariant forall c, t :: b < c < ids.Length0 && 0 <= t < ids.Length1 ==> ids[c, t] == 0 && mask[c, t] == 0
        invariant forall t :: 0 <= t < ids.Length1 ==> ids[b, t] == (if t < s then mine[b][t] else 0) && mask[b, t] == (if t < s then 1 else 0)
      {
        ids[b, s] := tokbuf[idx, s];
        mask[b, s] := 1;
      }
    }
  }
}
