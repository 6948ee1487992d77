/**
 `embed_unique` and `embed_window`: one embedding per distinct body, in bounded calls,
 shortest bodies first, each vector fanned out to every row with that body.
 */
module EmbedUnique {
  import opened Common
  import opened Sorting
  import opened Scatter
  import opened TableSync
  import opened BodyGroups
  import opened VectorIndexes

  const EMBED_WINDOW: nat := 1024

  const EMBED_CALL: nat := 96

  const EMBED_TEXT_COST_MAX: nat := 1024

  const EMBED_CALL_BUDGET: nat := 32 * EMBED_TEXT_COST_MAX

  datatype SizedItem = SizedItem(len: nat, item: nat)

  /** How many texts have 1024 bytes or more. */
  function Long(lens: seq<nat>): nat {
    if lens == [] then 0 else Long(lens[..|lens| - 1]) + if lens[|lens| - 1] >= 1024 then 1 else 0
  }

  /** The bytes of the other texts. */
  function ShortBytes(lens: seq<nat>): nat {
    if lens == [] then 0 else ShortBytes(lens[..|lens| - 1]) + if lens[|lens| - 1] >= 1024 then 0 else lens[|lens| - 1]
  }

  /** What one call may take: a long text counts as 1024 bytes. */
  predicate WithinBudget(lens: seq<nat>) {
    1024 * Long(lens) + ShortBytes(lens) <= 32768
  }

  lemma BudgetNext(lens: seq<nat>, len: nat)
    ensures Long(lens + [len]) == Long(lens) + if len >= 1024 then 1 else 0
    ensures ShortBytes(lens + [len]) == ShortBytes(lens) + if len >= 1024 then 0 else len
  {
    assert (lens + [len])[..|lens|] == lens;
  }

  function LensOf(items: seq<SizedItem>): (lens: seq<nat>)
    ensures |lens| == |items| && forall i :: 0 <= i < |items| ==> lens[i] == items[i].len
  {
    seq(|items|, i requires 0 <= i < |items| => items[i].len)
  }

  function Lengths(texts: seq<string>): (lens: seq<nat>)
    ensures |lens| == |texts| && forall i :: 0 <= i < |texts| ==> lens[i] == |texts[i]|
  {
    seq(|texts|, i requires 0 <= i < |texts| => |texts[i]|)
  }

  /** `call_len`: the longest prefix within both limits, and never none of a non-empty list. */
  method CallLen(items: seq<SizedItem>) returns (bn: nat)
    ensures bn <= |items| && bn <= EMBED_CALL && (items != [] ==> 1 <= bn)
    ensures WithinBudget(LensOf(items)[..bn])
    ensures bn == |items| || bn == 96 || !WithinBudget(LensOf(items)[..bn] + [items[bn].len])
  {
    var budget := 0;
    bn := 0;
    ghost var lens := LensOf(items);
    while bn < |items| && bn < EMBED_CALL
      invariant bn <= |items| && bn <= EMBED_CALL
      invariant budget == 1024 * Long(lens[..bn]) + ShortBytes(lens[..bn]) <= EMBED_CALL_BUDGET
    {
      LastStep(lens, bn);
      BudgetNext(lens[..bn], items[bn].len);
      var cost := if items[bn].len < EMBED_TEXT_COST_MAX then items[bn].len else EMBED_TEXT_COST_MAX;
      if bn > 0 && budget + cost > EMBED_CALL_BUDGET {
        break;
      }
      budget := budget + cost;
      bn := bn + 1;
    }
  }

  /** What every embedder call keeps to, so that one hold of the embedder is short. */
  predicate Bounded(call: seq<string>) {
    1 <= |call| <= 96 && WithinBudget(Lengths(call))
  }

  predicate AllBounded(calls: seq<seq<string>>) {
    forall c {:trigger Bounded(calls[c])} :: 0 <= c < |calls| ==> Bounded(calls[c])
  }

  function Texts(calls: seq<seq<string>>): seq<string> {
    if calls == [] then [] else Texts(calls[..|calls| - 1]) + calls[|calls| - 1]
  }

  lemma TextsOne(calls: seq<seq<string>>, call: seq<string>)
    ensures Texts(calls + [call]) == Texts(calls) + call
  {
    assert (calls + [call])[..|calls|] == calls;
  }

  lemma {:induction false} TextsSplit(a: seq<seq<string>>, b: seq<seq<string>>)
    ensures Texts(a + b) == Texts(a) + Texts(b)
  {
    if b == [] {
      assert a + b == a;
    } else {
      var b', c := b[..|b| - 1], b[|b| - 1];
      assert a + b == (a + b') + [c];
      TextsSplit(a, b');
      TextsOne(a + b', c);
      TextsOne(b', c);
      assert b == b' + [c];
    }
  }

  /** `sized_item_cmp`: by length, then by position, so no two items tie. */
  predicate ShorterFirst(a: SizedItem, b: SizedItem) {
    a.len < b.len || (a.len == b.len && a.item <= b.item)
  }

  /** The engine's embedder and the repository's files, as far as embedding sees them. */
  class Engine {
    /** One text's vector, whatever call it is part of. */
    const model: string -> Vec

    /** The body with a given hash: reading a row yields the body its hash was taken of. */
    const bodyOf: Hash -> string

    /** Every embedder call made, in order. */
    ghost var calls: seq<seq<string>>

    constructor (model: string -> Vec, bodyOf: Hash -> string)
      ensures this.model == model && this.bodyOf == bodyOf
    {
      this.model, this.bodyOf, this.calls := model, bodyOf, [];
    }

    /** The vector a row ought to have. */
    function VectorOf(row: Stored): Vec {
      model(bodyOf(row.chunk.hash))
    }

    /** `cberg_engine_embed`, as document embedding. */
    method Embed(texts: seq<string>) returns (st: Status, vecs: seq<Vec>)
      modifies this
      ensures calls == old(calls) + [texts]
      ensures st == Ok ==> |vecs| == |texts| && forall i :: 0 <= i < |texts| ==> vecs[i] == model(texts[i])
    {
      st := Outcome();
      vecs := seq(|texts|, i requires 0 <= i < |texts| => model(texts[i]));
      calls := calls + [texts];
    }

    /** `cache_slice`: any failure, or the row's body. */
    method Read(row: Stored) returns (st: Status, text: string)
      ensures st == Ok ==> text == bodyOf(row.chunk.hash)
    {
      st := Outcome();
      text := bodyOf(row.chunk.hash);
    }

    /** `read_window`: every body of the window with its length. */
    method ReadWindow(rows: Rows) returns (st: Status, texts: seq<string>, items: seq<SizedItem>)
      ensures st == Ok ==> |texts| == |items| == |rows|
      ensures st == Ok ==> forall i :: 0 <= i < |rows| ==> texts[i] == bodyOf(rows[i].chunk.hash) && items[i] == SizedItem(|texts[i]|, i)
    {
      texts, items := [], [];
      for i := 0 to |rows|
        invariant |texts| == |items| == i
        invariant forall j :: 0 <= j < i ==> texts[j] == bodyOf(rows[j].chunk.hash) && items[j] == SizedItem(|texts[j]|, j)
      {
        var text;
        st, text := Read(rows[i]);
        if st != Ok {
          return;
        }
        var ok := TryAlloc(|text|);
        if !ok {
          st := OutOfMemory;
          return;
        }
        texts, items := texts + [text], items + [SizedItem(|text|, i)];
      }
      st := Ok;
    }
  }

  // ---- Deliveries ----

  /** What row `u` is owed: its id with its body's vector. */
  function DeliveryOf(eng: Engine, rows: Rows, u: nat): Delivery {
    if u < |rows| then Delivery(rows[u].id, eng.VectorOf(rows[u])) else Delivery(0, [])
  }

  function Deliveries(eng: Engine, rows: Rows, us: seq<nat>): (ds: seq<Delivery>)
    ensures |ds| == |us| && forall i :: 0 <= i < |us| ==> ds[i] == DeliveryOf(eng, rows, us[i])
  {
    seq(|us|, i requires 0 <= i < |us| => DeliveryOf(eng, rows, us[i]))
  }

  lemma DeliveriesSplit(eng: Engine, rows: Rows, a: seq<nat>, b: seq<nat>)
    ensures Deliveries(eng, rows, a + b) == Deliveries(eng, rows, a) + Deliveries(eng, rows, b)
  {}

  function Ids(rows: Rows): set<nat> {
    set i | 0 <= i < |rows| :: rows[i].id
  }

  /** The groups as `embed_unique`'s two passes leave them. */
  ghost predicate LaidOut(rows: Rows, reps: seq<nat>, groupOf: seq<nat>, groupStart: seq<nat>, members: seq<nat>) {
    && SharedBodies(rows, reps, groupOf)
    && |groupStart| == |reps| + 1 && StartsTo(groupStart, groupOf, |reps| + 1)
    && Scattered(members, groupOf, |reps|)
  }

  /** The same of the arrays, to carry as one fact. */
  ghost predicate Layout(rows: Rows, reps: seq<nat>, groupOf: seq<nat>, groupStart: array<nat>, members: array<nat>)
    reads groupStart, members
  {
    && SharedBodies(rows, reps, groupOf)
    && forall n {:trigger Look(n)} :: Look(n) ==> LaidOut(rows, reps, groupOf, groupStart[..], members[..])
  }

  /** Where group `k`'s rows lie. */
  lemma GroupAt(rows: Rows, reps: seq<nat>, groupOf: seq<nat>, groupStart: seq<nat>, members: seq<nat>, k: nat)
    requires LaidOut(rows, reps, groupOf, groupStart, members) && k < |reps|
    ensures var b := Bucket(groupOf, |rows|, k);
            groupStart[k] + |b| == groupStart[k + 1] <= |members| && members[groupStart[k]..groupStart[k] + |b|] == b
  {
    assert StartIs(groupStart, groupOf, k) && StartIs(groupStart, groupOf, k + 1);
    assert Placed(members, groupOf, |groupOf|, k);
  }

  /** Whose they are. */
  lemma MemberIs(rows: Rows, reps: seq<nat>, groupOf: seq<nat>, k: nat, j: nat)
    requires SharedBodies(rows, reps, groupOf) && k < |reps| && j < |Bucket(groupOf, |rows|, k)|
    ensures var u := Bucket(groupOf, |rows|, k)[j];
            u < |rows| && rows[u].chunk.hash == rows[reps[k]].chunk.hash
  {
    BucketItem(groupOf, |rows|, k, j);
    assert SameBody(rows, reps, groupOf, Bucket(groupOf, |rows|, k)[j]);
  }

  /** `add_group_vector`: one vector for every row of the group. */
  method AddGroupVector(eng: Engine, index: VectorIndex, rows: Rows, groupStart: array<nat>, members: array<nat>, k: nat, vec: Vec,
                        ghost reps: seq<nat>, ghost groupOf: seq<nat>)
    returns (st: Status)
    requires Layout(rows, reps, groupOf, groupStart, members)
    requires k < |reps| && vec == eng.VectorOf(rows[reps[k]])
    modifies index
    ensures Elsewhere(old(index.vectors), index.vectors, Ids(rows))
    ensures st == Ok ==> index.adds == old(index.adds) + Deliveries(eng, rows, Bucket(groupOf, |rows|, k))
    ensures st == Ok ==> index.vectors == AddAll(old(index.vectors), Deliveries(eng, rows, Bucket(groupOf, |rows|, k)))
  {
    ghost var b := Bucket(groupOf, |rows|, k);
    ghost var ds := Deliveries(eng, rows, b);
    assert Look(0);
    GroupAt(rows, reps, groupOf, groupStart[..], members[..], k);
    var m := groupStart[k];
    ghost var j: nat := 0;
    while m < groupStart[k + 1]
      invariant m == groupStart[k] + j && j <= |b|
      invariant Elsewhere(old(index.vectors), index.vectors, Ids(rows))
      invariant index.adds == old(index.adds) + ds[..j]
      invariant index.vectors == AddAll(old(index.vectors), ds[..j])
    {
      SliceAt(members[..], groupStart[k], b, j);
      st := AddMember(eng, index, rows, members[m], vec, old(index.vectors), old(index.adds), ds, j, reps, groupOf, k);
      if st != Ok {
        return;
      }
      m, j := m + 1, j + 1;
    }
    assert ds[..j] == ds;
    st := Ok;
  }

  /** One addition of `add_group_vector`. */
  method AddMember(eng: Engine, index: VectorIndex, rows: Rows, u: nat, vec: Vec, ghost m0: Vectors, ghost a0: seq<Delivery>,
                   ghost ds: seq<Delivery>, ghost j: nat, ghost reps: seq<nat>, ghost groupOf: seq<nat>, ghost k: nat)
    returns (st: Status)
    requires SharedBodies(rows, reps, groupOf) && k < |reps| && vec == eng.VectorOf(rows[reps[k]])
    requires j < |Bucket(groupOf, |rows|, k)| && u == Bucket(groupOf, |rows|, k)[j] && ds == Deliveries(eng, rows, Bucket(groupOf, |rows|, k))
    requires Elsewhere(m0, index.vectors, Ids(rows)) && index.adds == a0 + ds[..j] && index.vectors == AddAll(m0, ds[..j])
    modifies index
    ensures Elsewhere(m0, index.vectors, Ids(rows))
    ensures st == Ok ==> index.adds == a0 + ds[..j + 1] && index.vectors == AddAll(m0, ds[..j + 1])
  {
    MemberIs(rows, reps, groupOf, k, j);
    LastStep(ds, j);
    AddOne(m0, ds[..j], ds[j]);
    Regroup(a0, ds[..j], [ds[j]]);
    assert rows[u].id in Ids(rows);
    st := index.Add(rows[u].id, vec);
  }

  /** What a list of groups is owed, in order: every row of every group. */
  function Owed(eng: Engine, rows: Rows, groupOf: seq<nat>, gs: seq<nat>): seq<Delivery> {
    Deliveries(eng, rows, Gather(groupOf, gs))
  }

  /** Doing the groups `more` after the groups `gs`. */
  lemma OwedJoin(eng: Engine, rows: Rows, groupOf: seq<nat>, gs: seq<nat>, more: seq<nat>, m: Vectors)
    ensures Owed(eng, rows, groupOf, gs + more) == Owed(eng, rows, groupOf, gs) + Owed(eng, rows, groupOf, more)
    ensures AddAll(m, Owed(eng, rows, groupOf, gs + more)) == AddAll(AddAll(m, Owed(eng, rows, groupOf, gs)), Owed(eng, rows, groupOf, more))
  {
    GatherSplit(groupOf, gs, more);
    DeliveriesSplit(eng, rows, Gather(groupOf, gs), Gather(groupOf, more));
    AddSplit(m, Owed(eng, rows, groupOf, gs), Owed(eng, rows, groupOf, more));
  }

  /** Doing one more group. */
  lemma OwedNext(eng: Engine, rows: Rows, groupOf: seq<nat>, gs: seq<nat>, g: nat, m: Vectors)
    requires |groupOf| == |rows|
    ensures Owed(eng, rows, groupOf, gs + [g]) == Owed(eng, rows, groupOf, gs) + Deliveries(eng, rows, Bucket(groupOf, |rows|, g))
    ensures AddAll(m, Owed(eng, rows, groupOf, gs + [g]))
         == AddAll(AddAll(m, Owed(eng, rows, groupOf, gs)), Deliveries(eng, rows, Bucket(groupOf, |rows|, g)))
  {
    GatherOne(groupOf, gs, g);
    DeliveriesSplit(eng, rows, Gather(groupOf, gs), Bucket(groupOf, |rows|, g));
    AddSplit(m, Owed(eng, rows, groupOf, gs), Deliveries(eng, rows, Bucket(groupOf, |rows|, g)));
  }

  // ---- One embedder call ----

  /** The groups a window's items stand for. */
  function GroupsAt(items: seq<SizedItem>, base: nat): (gs: seq<nat>)
    ensures |gs| == |items| && forall i :: 0 <= i < |items| ==> gs[i] == base + items[i].item
  {
    seq(|items|, i requires 0 <= i < |items| => base + items[i].item)
  }

  lemma GroupsNext(items: seq<SizedItem>, base: nat, b: nat)
    requires b < |items|
    ensures GroupsAt(items[..b + 1], base) == GroupsAt(items[..b], base) + [base + items[b].item]
  {}

  lemma GroupsJoin(items: seq<SizedItem>, base: nat, c: nat, bn: nat)
    requires c + bn <= |items|
    ensures GroupsAt(items[..c + bn], base) == GroupsAt(items[..c], base) + GroupsAt(items[c..][..bn], base)
  {}

  /** The items of one call name texts of the window, with their true lengths. */
  ghost predicate ItemsFit(items: seq<SizedItem>, texts: seq<string>) {
    forall i :: 0 <= i < |items| ==> items[i].item < |texts| && items[i].len == |texts[items[i].item]|
  }

  function Pick(items: seq<SizedItem>, texts: seq<string>): (p: seq<string>)
    requires ItemsFit(items, texts)
    ensures |p| == |items| && forall i :: 0 <= i < |items| ==> p[i] == texts[items[i].item]
  {
    seq(|items|, i requires 0 <= i < |items| => texts[items[i].item])
  }

  lemma PickLengths(items: seq<SizedItem>, texts: seq<string>)
    requires ItemsFit(items, texts)
    ensures Lengths(Pick(items, texts)) == LensOf(items)
  {}

  /** The window's texts are the bodies of the representatives from group `base` on. */
  ghost predicate BodiesFrom(eng: Engine, rows: Rows, reps: seq<nat>, base: nat, texts: seq<string>) {
    && base + |texts| <= |reps|
    && forall i :: 0 <= i < |texts| ==> reps[base + i] < |rows| && texts[i] == eng.bodyOf(rows[reps[base + i]].chunk.hash)
  }

  /** The sink loop of one call. */
  method FanOut(eng: Engine, index: VectorIndex, rows: Rows, groupStart: array<nat>, members: array<nat>, base: nat,
                items: seq<SizedItem>, vecs: seq<Vec>, ghost reps: seq<nat>, ghost groupOf: seq<nat>)
    returns (st: Status)
    requires Layout(rows, reps, groupOf, groupStart, members) && VectorsFit(eng, rows, reps, base, items, vecs)
    modifies index
    ensures Elsewhere(old(index.vectors), index.vectors, Ids(rows))
    ensures st == Ok ==> index.adds == old(index.adds) + Owed(eng, rows, groupOf, GroupsAt(items, base))
    ensures st == Ok ==> index.vectors == AddAll(old(index.vectors), Owed(eng, rows, groupOf, GroupsAt(items, base)))
  {
    ghost var gs: seq<nat> := [];
    assert Owed(eng, rows, groupOf, []) == [];
    for b := 0 to |items|
      invariant Elsewhere(old(index.vectors), index.vectors, Ids(rows)) && gs == GroupsAt(items[..b], base)
      invariant index.adds == old(index.adds) + Owed(eng, rows, groupOf, gs)
      invariant index.vectors == AddAll(old(index.vectors), Owed(eng, rows, groupOf, gs))
    {
      var g := base + items[b].item;
      assert VectorFits(eng, rows, reps, base, items, vecs, b);
      GroupsNext(items, base, b);
      st := FanGroup(eng, index, rows, groupStart, members, g, vecs[b], gs, old(index.vectors), old(index.adds), reps, groupOf);
      if st != Ok {
        return;
      }
      gs := gs + [g];
    }
    assert items[..|items|] == items;
    st := Ok;
  }

  /** One group's vector, seen from the start of the call. */
  method FanGroup(eng: Engine, index: VectorIndex, rows: Rows, groupStart: array<nat>, members: array<nat>, g: nat, vec: Vec,
                  ghost gs: seq<nat>, ghost m0: Vectors, ghost a0: seq<Delivery>, ghost reps: seq<nat>, ghost groupOf: seq<nat>)
    returns (st: Status)
    requires Layout(rows, reps, groupOf, groupStart, members) && g < |reps| && vec == eng.VectorOf(rows[reps[g]])
    requires Elsewhere(m0, index.vectors, Ids(rows))
    requires index.adds == a0 + Owed(eng, rows, groupOf, gs) && index.vectors == AddAll(m0, Owed(eng, rows, groupOf, gs))
    modifies index
    ensures Elsewhere(m0, index.vectors, Ids(rows))
    ensures st == Ok ==> index.adds == a0 + Owed(eng, rows, groupOf, gs + [g]) && index.vectors == AddAll(m0, Owed(eng, rows, groupOf, gs + [g]))
  {
    OwedNext(eng, rows, groupOf, gs, g, m0);
    Regroup(a0, Owed(eng, rows, groupOf, gs), Deliveries(eng, rows, Bucket(groupOf, |rows|, g)));
    st := AddGroupVector(eng, index, rows, groupStart, members, g, vec, reps, groupOf);
  }

  // ---- Progress through the groups ----

  /** The body a group stands for. */
  function BodyOf(eng: Engine, rows: Rows, reps: seq<nat>, g: nat): string {
    if g < |reps| && reps[g] < |rows| then eng.bodyOf(rows[reps[g]].chunk.hash) else ""
  }

  /** The bodies of a list of groups. */
  function Bodies(eng: Engine, rows: Rows, reps: seq<nat>, gs: seq<nat>): (b: seq<string>)
    ensures |b| == |gs| && forall i :: 0 <= i < |gs| ==> b[i] == BodyOf(eng, rows, reps, gs[i])
  {
    seq(|gs|, i requires 0 <= i < |gs| => BodyOf(eng, rows, reps, gs[i]))
  }

  lemma BodiesSplit(eng: Engine, rows: Rows, reps: seq<nat>, a: seq<nat>, b: seq<nat>)
    ensures Bodies(eng, rows, reps, a + b) == Bodies(eng, rows, reps, a) + Bodies(eng, rows, reps, b)
  {}

  /** The calls made since `calls0` all keep the bounds. */
  ghost predicate CallsSince(calls0: seq<seq<string>>, calls: seq<seq<string>>) {
    |calls0| <= |calls| && calls0 == calls[..|calls0|] && AllBounded(calls[|calls0|..])
  }

  /** The calls made since `calls0` keep the bounds and embed these texts, in order. */
  ghost predicate Called(calls0: seq<seq<string>>, calls: seq<seq<string>>, texts: seq<string>) {
    forall n {:trigger Look(n)} :: Look(n) ==> CallsSince(calls0, calls) && Texts(calls[|calls0|..]) == texts
  }

  lemma OneCall(calls: seq<seq<string>>, call: seq<string>)
    requires Bounded(call)
    ensures CallsSince(calls, calls + [call]) && Called(calls, calls + [call], call)
  {
    TakeDrop(calls, [call]);
    NoTail([call]);
    TextsOne([], call);
    NoTail(call);
  }

  lemma CalledJoin(a: seq<seq<string>>, b: seq<seq<string>>, c: seq<seq<string>>, x: seq<string>, y: seq<string>)
    requires Called(a, b, x) && Called(b, c, y)
    ensures Called(a, c, x + y)
  {
    assert Look(0);
    CallsJoin(a, b, c);
  }

  lemma CallsJoin(a: seq<seq<string>>, b: seq<seq<string>>, c: seq<seq<string>>)
    requires CallsSince(a, b) && CallsSince(b, c)
    ensures CallsSince(a, c) && Texts(c[|a|..]) == Texts(b[|a|..]) + Texts(c[|b|..])
  {
    var x, y := b[|a|..], c[|b|..];
    assert b == a + x && c == b + y;
    Regroup(a, x, y);
    TakeDrop(a, x + y);
    TextsSplit(x, y);
    forall i {:trigger Bounded((x + y)[i])} | 0 <= i < |x + y|
      ensures Bounded((x + y)[i])
    {
      assert if i < |x| then Bounded(x[i]) else Bounded(y[i - |x|]);
    }
  }

  /** The parts of the state that embedding moves. */
  datatype State = State(calls: seq<seq<string>>, adds: seq<Delivery>, vectors: Vectors)

  ghost function StateOf(eng: Engine, index: VectorIndex): State
    reads eng, index
  {
    State(eng.calls, index.adds, index.vectors)
  }

  /** From `a` to `b` exactly these deliveries were made. */
  ghost predicate DeliveredAll(a: State, b: State, ds: seq<Delivery>) {
    forall n {:trigger Look(n)} :: Look(n) ==> b.adds == a.adds + ds && b.vectors == AddAll(a.vectors, ds)
  }

  lemma DeliveredJoin(a: State, b: State, c: State, x: seq<Delivery>, y: seq<Delivery>)
    requires DeliveredAll(a, b, x) && DeliveredAll(b, c, y)
    ensures DeliveredAll(a, c, x + y)
  {
    assert Look(0);
    AddSplit(a.vectors, x, y);
    Regroup(a.adds, x, y);
  }

  /** From `a` to `b` each of the groups was embedded once, in bounded calls, and each of its rows delivered. */
  ghost predicate Progress(eng: Engine, rows: Rows, reps: seq<nat>, groupOf: seq<nat>, gs: seq<nat>, a: State, b: State) {
    && Called(a.calls, b.calls, Bodies(eng, rows, reps, gs))
    && DeliveredAll(a, b, Owed(eng, rows, groupOf, gs))
  }

  /** What progress means. */
  lemma ProgressMeans(eng: Engine, rows: Rows, reps: seq<nat>, groupOf: seq<nat>, gs: seq<nat>, a: State, b: State)
    requires Progress(eng, rows, reps, groupOf, gs, a, b)
    ensures CallsSince(a.calls, b.calls)
    ensures Texts(b.calls[|a.calls|..]) == Bodies(eng, rows, reps, gs)
    ensures b.adds == a.adds + Deliveries(eng, rows, Gather(groupOf, gs))
    ensures b.vectors == AddAll(a.vectors, Deliveries(eng, rows, Gather(groupOf, gs)))
  {
    assert Look(0);
  }

  lemma WholeIsSince(calls: seq<seq<string>>)
    ensures CallsSince(calls, calls)
  {
    assert calls[|calls|..] == [];
  }

  lemma ProgressNone(eng: Engine, rows: Rows, reps: seq<nat>, groupOf: seq<nat>, a: State)
    ensures Progress(eng, rows, reps, groupOf, [], a, a)
  {
    assert a.calls[|a.calls|..] == [];
  }

  lemma ProgressJoin(eng: Engine, rows: Rows, reps: seq<nat>, groupOf: seq<nat>, gs: seq<nat>, more: seq<nat>, a: State, b: State, c: State)
    requires Progress(eng, rows, reps, groupOf, gs, a, b) && Progress(eng, rows, reps, groupOf, more, b, c)
    ensures Progress(eng, rows, reps, groupOf, gs + more, a, c)
  {
    CalledJoin(a.calls, b.calls, c.calls, Bodies(eng, rows, reps, gs), Bodies(eng, rows, reps, more));
    BodiesSplit(eng, rows, reps, gs, more);
    DeliveredJoin(a, b, c, Owed(eng, rows, groupOf, gs), Owed(eng, rows, groupOf, more));
    OwedJoin(eng, rows, groupOf, gs, more, a.vectors);
  }

  /** What the sink is handed for each item is its group's vector. */
  ghost predicate VectorsFit(eng: Engine, rows: Rows, reps: seq<nat>, base: nat, items: seq<SizedItem>, vecs: seq<Vec>) {
    |vecs| == |items| &&
    forall b {:trigger VectorFits(eng, rows, reps, base, items, vecs, b)} :: 0 <= b < |items| ==> VectorFits(eng, rows, reps, base, items, vecs, b)
  }

  ghost predicate VectorFits(eng: Engine, rows: Rows, reps: seq<nat>, base: nat, items: seq<SizedItem>, vecs: seq<Vec>, b: nat) {
    && b < |items| && b < |vecs| && base + items[b].item < |reps| && reps[base + items[b].item] < |rows|
    && vecs[b] == eng.VectorOf(rows[reps[base + items[b].item]])
  }

  lemma CallVectors(eng: Engine, rows: Rows, reps: seq<nat>, base: nat, texts: seq<string>, items: seq<SizedItem>, vecs: seq<Vec>)
    requires BodiesFrom(eng, rows, reps, base, texts) && ItemsFit(items, texts) && |vecs| == |items|
    requires forall i :: 0 <= i < |items| ==> vecs[i] == eng.model(Pick(items, texts)[i])
    ensures VectorsFit(eng, rows, reps, base, items, vecs)
  {
    forall b {:trigger VectorFits(eng, rows, reps, base, items, vecs, b)} | 0 <= b < |items|
      ensures VectorFits(eng, rows, reps, base, items, vecs, b)
    {
      assert texts[items[b].item] == eng.bodyOf(rows[reps[base + items[b].item]].chunk.hash);
      assert Pick(items, texts)[b] == texts[items[b].item];
    }
  }

  /** The texts a window's items name are the bodies of their groups. */
  lemma PickIsBodies(eng: Engine, rows: Rows, reps: seq<nat>, base: nat, texts: seq<string>, items: seq<SizedItem>)
    requires BodiesFrom(eng, rows, reps, base, texts) && ItemsFit(items, texts)
    ensures Pick(items, texts) == Bodies(eng, rows, reps, GroupsAt(items, base))
  {
    var p, b := Pick(items, texts), Bodies(eng, rows, reps, GroupsAt(items, base));
    forall i | 0 <= i < |items|
      ensures p[i] == b[i]
    {
      assert texts[items[i].item] == BodyOf(eng, rows, reps, base + items[i].item);
    }
  }

  /** The texts of one call: bounded, and the bodies of its groups. */
  lemma CallTexts(eng: Engine, rows: Rows, reps: seq<nat>, base: nat, texts: seq<string>, items: seq<SizedItem>)
    requires BodiesFrom(eng, rows, reps, base, texts) && ItemsFit(items, texts)
    requires 1 <= |items| <= EMBED_CALL && WithinBudget(LensOf(items))
    ensures Bounded(Pick(items, texts)) && Pick(items, texts) == Bodies(eng, rows, reps, GroupsAt(items, base))
  {
    PickLengths(items, texts);
    PickIsBodies(eng, rows, reps, base, texts, items);
  }

  /** One bounded embedder call, entered in the books. */
  method EmbedBounded(eng: Engine, texts: seq<string>, ghost bodies: seq<string>) returns (st: Status, vecs: seq<Vec>)
    requires Bounded(texts) && texts == bodies
    modifies eng
    ensures CallsSince(old(eng.calls), eng.calls) && Called(old(eng.calls), eng.calls, bodies) && eng.calls == old(eng.calls) + [texts]
    ensures st == Ok ==> |vecs| == |texts| && forall i :: 0 <= i < |texts| ==> vecs[i] == eng.model(texts[i])
  {
    OneCall(eng.calls, texts);
    st, vecs := eng.Embed(texts);
  }

  /** One round of `embed_window`'s loop: a bounded call, and each vector to its whole group. */
  method EmbedCall(eng: Engine, index: VectorIndex, rows: Rows, groupStart: array<nat>, members: array<nat>, base: nat,
                   texts: seq<string>, items: seq<SizedItem>, ghost reps: seq<nat>, ghost groupOf: seq<nat>)
    returns (st: Status)
    requires Layout(rows, reps, groupOf, groupStart, members) && BodiesFrom(eng, rows, reps, base, texts)
    requires ItemsFit(items, texts) && 1 <= |items| <= EMBED_CALL && WithinBudget(LensOf(items))
    modifies eng, index
    ensures CallsSince(old(eng.calls), eng.calls) && Elsewhere(old(index.vectors), index.vectors, Ids(rows))
    ensures st == Ok ==> Progress(eng, rows, reps, groupOf, GroupsAt(items, base), old(StateOf(eng, index)), StateOf(eng, index))
    ensures eng.calls == old(eng.calls) + [Pick(items, texts)]
  {
    ghost var a, gs := StateOf(eng, index), GroupsAt(items, base);
    var btexts := Pick(items, texts);
    CallTexts(eng, rows, reps, base, texts, items);
    var vecs;
    st, vecs := EmbedBounded(eng, btexts, Bodies(eng, rows, reps, gs));
    if st == Ok {
      CallVectors(eng, rows, reps, base, texts, items, vecs);
      st := FanOut(eng, index, rows, groupStart, members, base, items, vecs, reps, groupOf);
      if st == Ok {
        IsDelivered(a, StateOf(eng, index), Owed(eng, rows, groupOf, gs));
      }
    }
  }

  lemma IsDelivered(a: State, b: State, ds: seq<Delivery>)
    requires b.adds == a.adds + ds && b.vectors == AddAll(a.vectors, ds)
    ensures DeliveredAll(a, b, ds)
  {}

  // ---- One window ----

  lemma ShorterFirstIsTotal()
    ensures TotalPreorder(ShorterFirst)
  {}

  /** Sorting keeps every item's text and length, and lists every group of the window once. */
  lemma SortedItems(read: seq<SizedItem>, sorted: seq<SizedItem>, texts: seq<string>, base: nat)
    requires |texts| == |read| && multiset(sorted) == multiset(read)
    requires forall i :: 0 <= i < |read| ==> read[i] == SizedItem(|texts[i]|, i)
    ensures ItemsFit(sorted, texts) && OnceEach(GroupsAt(sorted, base), base, base + |texts|)
  {
    forall i | 0 <= i < |sorted|
      ensures sorted[i].item < |texts| && sorted[i].len == |texts[sorted[i].item]|
    {
      assert sorted[i] in multiset(read);
    }
    var f := (it: SizedItem) => base + it.item;
    MapPermuted(f, sorted, read);
    assert Map(f, sorted) == GroupsAt(sorted, base);
    assert Map(f, read) == Range(base, |texts|);
    RangeOnce(base, |texts|);
    OncePermuted(Range(base, |texts|), GroupsAt(sorted, base), base, base + |texts|);
  }

  /** One round of the call loop, seen from the start of the window. */
  method EmbedPart(eng: Engine, index: VectorIndex, rows: Rows, groupStart: array<nat>, members: array<nat>, base: nat,
                   texts: seq<string>, items: seq<SizedItem>, ghost done: seq<nat>, ghost a: State, ghost reps: seq<nat>, ghost groupOf: seq<nat>)
    returns (st: Status)
    requires Layout(rows, reps, groupOf, groupStart, members) && BodiesFrom(eng, rows, reps, base, texts)
    requires ItemsFit(items, texts) && 1 <= |items| <= EMBED_CALL && WithinBudget(LensOf(items))
    requires Elsewhere(a.vectors, index.vectors, Ids(rows)) && Progress(eng, rows, reps, groupOf, done, a, StateOf(eng, index))
    modifies eng, index
    ensures CallsSince(a.calls, eng.calls) && Elsewhere(a.vectors, index.vectors, Ids(rows))
    ensures st == Ok ==> Progress(eng, rows, reps, groupOf, done + GroupsAt(items, base), a, StateOf(eng, index))
    ensures eng.calls == old(eng.calls) + [Pick(items, texts)]
  {
    ghost var b := StateOf(eng, index);
    st := EmbedCall(eng, index, rows, groupStart, members, base, texts, items, reps, groupOf);
    ProgressMeans(eng, rows, reps, groupOf, done, a, b);
    CallsJoin(a.calls, b.calls, eng.calls);
    if st == Ok {
      ProgressJoin(eng, rows, reps, groupOf, done, GroupsAt(items, base), a, b, StateOf(eng, index));
    }
  }

  /** The next text would not have fitted the call. */
  ghost predicate NoRoom(call: seq<string>, len: nat) {
    |call| == 96 || !WithinBudget(Lengths(call) + [len])
  }

  /** Every call but the last takes as many texts as it may. */
  ghost predicate Packed(calls: seq<seq<string>>) {
    && (forall c {:trigger calls[c]} :: 0 <= c < |calls| ==> calls[c] != [])
    && forall c {:trigger calls[c + 1]} :: 0 <= c && c + 1 < |calls| ==> NoRoom(calls[c], |calls[c + 1][0]|)
  }

  /** The next call may follow: its first text is what the last one had no room for. */
  ghost predicate MayFollow(calls: seq<seq<string>>, len: nat) {
    calls != [] ==> NoRoom(calls[|calls| - 1], len)
  }

  lemma PackedNext(calls: seq<seq<string>>, call: seq<string>)
    requires Packed(calls) && call != [] && MayFollow(calls, |call[0]|)
    ensures Packed(calls + [call])
  {
    var all := calls + [call];
    forall c {:trigger all[c + 1]} | 0 <= c && c + 1 < |all|
      ensures NoRoom(all[c], |all[c + 1][0]|)
    {
      if c + 1 < |calls| {
        assert all[c] == calls[c] && all[c + 1] == calls[c + 1];
      }
    }
  }

  /** The calls so far are packed, and what comes next may follow: a fact to carry, not to look into. */
  ghost predicate InCalls(made: seq<seq<string>>, items: seq<SizedItem>, c: nat) {
    forall n {:trigger Look(n)} :: Look(n) ==> Packed(made) && (c < |items| ==> MayFollow(made, items[c].len))
  }

  lemma PackedSoFar(made: seq<seq<string>>, items: seq<SizedItem>, c: nat)
    requires InCalls(made, items, c)
    ensures Packed(made)
  {
    assert Look(0);
  }

  lemma InCallsNext(made: seq<seq<string>>, items: seq<SizedItem>, c: nat, part: seq<SizedItem>, texts: seq<string>)
    requires c < |items| && ItemsFit(items, texts) && ItemsFit(part, texts) && part != [] && part[0] == items[c] && InCalls(made, items, c)
    requires c + |part| < |items| ==> NoRoom(Pick(part, texts), items[c + |part|].len)
    ensures InCalls(made + [Pick(part, texts)], items, c + |part|)
  {
    assert Look(0);
    PackedNext(made, Pick(part, texts));
  }

  /** The next call's items. */
  method NextPart(items: seq<SizedItem>, c: nat, texts: seq<string>, ghost base: nat, ghost made: seq<seq<string>>)
    returns (part: seq<SizedItem>, end: nat, ghost made': seq<seq<string>>)
    requires c < |items| && ItemsFit(items, texts) && InCalls(made, items, c)
    ensures 1 <= |part| <= EMBED_CALL && c + |part| <= |items| && ItemsFit(part, texts) && WithinBudget(LensOf(part))
    ensures end == c + |part| && made' == made + [Pick(part, texts)] && InCalls(made', items, end)
    ensures GroupsAt(items[..end], base) == GroupsAt(items[..c], base) + GroupsAt(part, base)
  {
    var bn := CallLen(items[c..]);
    part := items[c..][..bn];
    assert LensOf(part) == LensOf(items[c..])[..bn];
    PickLengths(part, texts);
    GroupsJoin(items, base, c, bn);
    InCallsNext(made, items, c, part, texts);
    end, made' := c + bn, made + [Pick(part, texts)];
  }

  /** The call loop of `embed_window`, over the sorted items. */
  method EmbedItems(eng: Engine, index: VectorIndex, rows: Rows, groupStart: array<nat>, members: array<nat>, base: nat,
                    texts: seq<string>, items: seq<SizedItem>, ghost reps: seq<nat>, ghost groupOf: seq<nat>)
    returns (st: Status, ghost made: seq<seq<string>>)
    requires Layout(rows, reps, groupOf, groupStart, members) && BodiesFrom(eng, rows, reps, base, texts) && ItemsFit(items, texts)
    modifies eng, index
    ensures CallsSince(old(eng.calls), eng.calls) && Elsewhere(old(index.vectors), index.vectors, Ids(rows))
    ensures st == Ok ==> Progress(eng, rows, reps, groupOf, GroupsAt(items, base), old(StateOf(eng, index)), StateOf(eng, index))
    ensures eng.calls == old(eng.calls) + made && Packed(made)
  {
    ghost var a, done: seq<nat> := StateOf(eng, index), [];
    WholeIsSince(a.calls);
    ProgressNone(eng, rows, reps, groupOf, a);
    made := [];
    NoTail(a.calls);
    var c := 0;
    while c < |items|
      invariant c <= |items| && CallsSince(a.calls, eng.calls) && Elsewhere(a.vectors, index.vectors, Ids(rows)) && done == GroupsAt(items[..c], base)
      invariant Progress(eng, rows, reps, groupOf, done, a, StateOf(eng, index))
      invariant eng.calls == a.calls + made && InCalls(made, items, c)
    {
      var part, end;
      ghost var made';
      part, end, made' := NextPart(items, c, texts, base, made);
      Regroup(a.calls, made, [Pick(part, texts)]);
      st := EmbedPart(eng, index, rows, groupStart, members, base, texts, part, done, a, reps, groupOf);
      made := made';
      if st != Ok {
        PackedSoFar(made, items, end);
        return;
      }
      done := done + GroupsAt(part, base);
      c := end;
    }
    assert items[..c] == items;
    PackedSoFar(made, items, c);
    st := Ok;
  }

  /** No text is shorter than one before it. */
  ghost predicate Rising(lens: seq<nat>) {
    forall i, j :: 0 <= i < j < |lens| ==> lens[i] <= lens[j]
  }

  /** One window's calls: at most 1024 texts, shortest first, each call as full as it may be. */
  ghost predicate WindowOk(calls: seq<seq<string>>) {
    Packed(calls) && |Texts(calls)| <= 1024 && Rising(Lengths(Texts(calls)))
  }

  lemma WindowIsOk(eng: Engine, rows: Rows, reps: seq<nat>, groupOf: seq<nat>, base: nat, texts: seq<string>, items: seq<SizedItem>,
                   a: State, b: State, made: seq<seq<string>>)
    requires BodiesFrom(eng, rows, reps, base, texts) && ItemsFit(items, texts) && SortedBy(items, ShorterFirst) && |items| <= 1024
    requires Progress(eng, rows, reps, groupOf, GroupsAt(items, base), a, b) && b.calls == a.calls + made && Packed(made)
    ensures WindowOk(made) && |Texts(made)| == |items|
  {
    ProgressMeans(eng, rows, reps, groupOf, GroupsAt(items, base), a, b);
    TakeDrop(a.calls, made);
    PickIsBodies(eng, rows, reps, base, texts, items);
    PickLengths(items, texts);
    SortedRises(items);
  }

  lemma SortedRises(items: seq<SizedItem>)
    requires SortedBy(items, ShorterFirst)
    ensures Rising(LensOf(items))
  {
    forall i, j | 0 <= i < j < |items|
      ensures LensOf(items)[i] <= LensOf(items)[j]
    {
      assert ShorterFirst(items[i], items[j]);
    }
  }

  /** `embed_window`: read the bodies, sort them by length, embed them in bounded calls. */
  method EmbedWindow(eng: Engine, index: VectorIndex, rows: Rows, groupStart: array<nat>, members: array<nat>, base: nat, wrows: Rows,
                     ghost reps: seq<nat>, ghost groupOf: seq<nat>)
    returns (st: Status, ghost gs: seq<nat>, ghost made: seq<seq<string>>)
    requires Layout(rows, reps, groupOf, groupStart, members) && base + |wrows| <= |reps| && |wrows| <= 1024
    requires forall i :: 0 <= i < |wrows| ==> wrows[i] == rows[reps[base + i]]
    modifies eng, index
    ensures eng.calls == old(eng.calls) + made && (st == Ok ==> WindowOk(made) && |Texts(made)| == |wrows|)
    ensures CallsSince(old(eng.calls), eng.calls) && Elsewhere(old(index.vectors), index.vectors, Ids(rows))
    ensures st == Ok ==> OnceEach(gs, base, base + |wrows|)
    ensures st == Ok ==> Progress(eng, rows, reps, groupOf, gs, old(StateOf(eng, index)), StateOf(eng, index))
  {
    WholeIsSince(eng.calls);
    gs, made := [], [];
    NoTail(eng.calls);
    var ok := TryAlloc(2 * |wrows|);
    if !ok {
      return OutOfMemory, gs, made;
    }
    var texts, read;
    st, texts, read := eng.ReadWindow(wrows);
    if st != Ok {
      return;
    }
    ShorterFirstIsTotal();
    var items := QSort(read, ShorterFirst);
    SortedItems(read, items, texts, base);
    gs := GroupsAt(items, base);
    ghost var a := StateOf(eng, index);
    st, made := EmbedItems(eng, index, rows, groupStart, members, base, texts, items, reps, groupOf);
    if st == Ok {
      WindowIsOk(eng, rows, reps, groupOf, base, texts, items, a, StateOf(eng, index), made);
    }
  }

  // ---- Every row ----

  /** No two rows have one id. */
  ghost predicate DistinctIds(rows: Rows) {
    forall i, j :: 0 <= i < |rows| && 0 <= j < |rows| && rows[i].id == rows[j].id ==> i == j
  }

  /** The index holds row `u`'s id with its body's vector. */
  ghost predicate HasRow(eng: Engine, m: Vectors, rows: Rows, u: nat) {
    u < |rows| && rows[u].id in m && m[rows[u].id] == eng.VectorOf(rows[u])
  }

  /** However the deliveries are ordered, each row ends up with its own vector. */
  lemma {:induction false} DeliveredRow(eng: Engine, rows: Rows, m: Vectors, us: seq<nat>, u: nat)
    requires DistinctIds(rows) && KeysBelow(us, |rows|) && u in us
    ensures HasRow(eng, AddAll(m, Deliveries(eng, rows, us)), rows, u)
  {
    var n := |us| - 1;
    assert Deliveries(eng, rows, us)[..n] == Deliveries(eng, rows, us[..n]);
    if us[n] != u {
      assert us == us[..n] + [us[n]];
      assert u in us[..n];
      DeliveredRow(eng, rows, m, us[..n], u);
    }
  }

  lemma AllDelivered(eng: Engine, rows: Rows, m: Vectors, us: seq<nat>)
    requires DistinctIds(rows) && OnceEach(us, 0, |rows|)
    ensures forall u :: 0 <= u < |rows| ==> HasRow(eng, AddAll(m, Deliveries(eng, rows, us)), rows, u)
  {
    forall i | 0 <= i < |us|
      ensures us[i] < |rows|
    {
      OnceIn(us, 0, |rows|, i);
    }
    forall u | 0 <= u < |rows|
      ensures HasRow(eng, AddAll(m, Deliveries(eng, rows, us)), rows, u)
    {
      var p := EveryItem(us, 0, |rows|, u);
      DeliveredRow(eng, rows, m, us, u);
    }
  }

  /** One round of the window loop, seen from the start of the call. */
  method NextWindow(eng: Engine, index: VectorIndex, rows: Rows, groupStart: array<nat>, members: array<nat>, base: nat, wrows: Rows,
                    ghost done: seq<nat>, ghost a: State, ghost reps: seq<nat>, ghost groupOf: seq<nat>)
    returns (st: Status, ghost gs: seq<nat>, ghost made: seq<seq<string>>)
    requires Layout(rows, reps, groupOf, groupStart, members) && base + |wrows| <= |reps| && |wrows| <= 1024
    requires forall i :: 0 <= i < |wrows| ==> wrows[i] == rows[reps[base + i]]
    requires OnceEach(done, 0, base)
    requires Elsewhere(a.vectors, index.vectors, Ids(rows)) && Progress(eng, rows, reps, groupOf, done, a, StateOf(eng, index))
    modifies eng, index
    ensures CallsSince(a.calls, eng.calls) && Elsewhere(a.vectors, index.vectors, Ids(rows))
    ensures st == Ok ==> OnceEach(gs, 0, base + |wrows|) && Progress(eng, rows, reps, groupOf, gs, a, StateOf(eng, index))
    ensures eng.calls == old(eng.calls) + made && (st == Ok ==> WindowOk(made) && |Texts(made)| == |wrows|)
  {
    ghost var b, more := StateOf(eng, index), [];
    st, more, made := EmbedWindow(eng, index, rows, groupStart, members, base, wrows, reps, groupOf);
    gs := done + more;
    ProgressMeans(eng, rows, reps, groupOf, done, a, b);
    CallsJoin(a.calls, b.calls, eng.calls);
    if st == Ok {
      ProgressJoin(eng, rows, reps, groupOf, done, more, a, b, StateOf(eng, index));
      OnceJoin(done, more, 0, base, base + |wrows|);
    }
  }

  /** The calls of all windows, in order. */
  function Flat(windows: seq<seq<seq<string>>>): seq<seq<string>> {
    if windows == [] then [] else Flat(windows[..|windows| - 1]) + windows[|windows| - 1]
  }

  /** Every window is as it should be, and every one but the last is full. */
  ghost predicate WindowsOk(windows: seq<seq<seq<string>>>, texts: nat) {
    && (forall w {:trigger WindowOk(windows[w])} :: 0 <= w < |windows| ==> WindowOk(windows[w]))
    && (forall w {:trigger Texts(windows[w])} :: 0 <= w < |windows| ==> |Texts(windows[w])| == if w + 1 < |windows| then 1024 else texts - 1024 * w)
    && |windows| == (texts + 1023) / 1024
  }

  lemma WindowsNext(windows: seq<seq<seq<string>>>, made: seq<seq<string>>, texts: nat)
    requires WindowsOk(windows, texts) && texts == 1024 * |windows| && WindowOk(made) && |Texts(made)| >= 1
    ensures WindowsOk(windows + [made], texts + |Texts(made)|) && Flat(windows + [made]) == Flat(windows) + made
  {
    var all := windows + [made];
    assert all[..|windows|] == windows;
    assert all[|windows|] == made && forall w :: 0 <= w < |windows| ==> all[w] == windows[w];
  }

  /** The window loop of `embed_unique`. */
  method EmbedWindows(eng: Engine, index: VectorIndex, rows: Rows, groupStart: array<nat>, members: array<nat>, reps: seq<nat>, ghost groupOf: seq<nat>)
    returns (st: Status, ghost gs: seq<nat>, ghost windows: seq<seq<seq<string>>>)
    requires Layout(rows, reps, groupOf, groupStart, members)
    modifies eng, index
    ensures CallsSince(old(eng.calls), eng.calls) && Elsewhere(old(index.vectors), index.vectors, Ids(rows))
    ensures st == Ok ==> OnceEach(gs, 0, |reps|)
    ensures st == Ok ==> Progress(eng, rows, reps, groupOf, gs, old(StateOf(eng, index)), StateOf(eng, index))
    ensures st == Ok ==> eng.calls == old(eng.calls) + Flat(windows) && WindowsOk(windows, |reps|)
  {
    ghost var a := StateOf(eng, index);
    WholeIsSince(a.calls);
    ProgressNone(eng, rows, reps, groupOf, a);
    gs, windows := [], [];
    NoTail(a.calls);
    var g := 0;
    while g < |reps|
      invariant g <= |reps| && CallsSince(a.calls, eng.calls) && Elsewhere(a.vectors, index.vectors, Ids(rows)) && OnceEach(gs, 0, g)
      invariant Progress(eng, rows, reps, groupOf, gs, a, StateOf(eng, index))
      invariant eng.calls == a.calls + Flat(windows) && WindowsOk(windows, g) && (g < |reps| ==> g == 1024 * |windows|)
    {
      var wn := if |reps| - g < EMBED_WINDOW then |reps| - g else EMBED_WINDOW;
      var wrows := seq(wn, b requires 0 <= b < wn && g + wn <= |reps| && reps[g + b] < |rows| => rows[reps[g + b]]);
      ghost var made;
      st, gs, made := NextWindow(eng, index, rows, groupStart, members, g, wrows, gs, a, reps, groupOf);
      if st != Ok {
        return;
      }
      WindowsNext(windows, made, g);
      Regroup(a.calls, Flat(windows), made);
      windows := windows + [made];
      g := g + wn;
    }
    st := Ok;
  }

  /**
   `embed_unique`: on success every group was embedded exactly once and every row delivered exactly once,
   with the vector of its own body, window by window, shortest body first, in calls as full as their bounds allow; on
   any outcome only these rows' ids were touched, in bounded calls.
   */
  method EmbedRows(eng: Engine, index: VectorIndex, rows: Rows, prefix: Hash -> nat, mix64: nat -> nat)
    returns (st: Status, unique: nat, ghost reps: seq<nat>, ghost groupOf: seq<nat>, ghost gs: seq<nat>, ghost windows: seq<seq<seq<string>>>)
    modifies eng, index
    ensures CallsSince(old(eng.calls), eng.calls) && Elsewhere(old(index.vectors), index.vectors, Ids(rows))
    ensures st == Ok ==> |groupOf| == |rows| && Grouped(Hashes(rows), Prefixes(Hashes(rows), prefix), reps, groupOf, |rows|) && unique == |reps|
    ensures st == Ok ==> OnceEach(gs, 0, |reps|) && OnceEach(Gather(groupOf, gs), 0, |rows|)
    ensures st == Ok ==> Progress(eng, rows, reps, groupOf, gs, old(StateOf(eng, index)), StateOf(eng, index))
    ensures st == Ok && DistinctIds(rows) ==> forall u :: 0 <= u < |rows| ==> HasRow(eng, index.vectors, rows, u)
    ensures st == Ok ==> eng.calls == old(eng.calls) + Flat(windows) && WindowsOk(windows, |reps|)
  {
    unique, reps, groupOf, gs, windows := 0, [], [], [], [];
    WholeIsSince(eng.calls);
    if |rows| == 0 {
      ProgressNone(eng, rows, [], [], StateOf(eng, index));
      NoTail(eng.calls);
      return Ok, 0, [], [], [], [];
    }
    var reps', group;
    st, reps', group := AssignGroups(rows, prefix, mix64);
    if st != Ok {
      return;
    }
    reps, groupOf := reps', group[..];
    GroupsShareBodies(rows, Prefixes(Hashes(rows), prefix), reps, groupOf);
    var groupStart, members;
    st, groupStart, members := LayOut(group, |reps'|);
    if st != Ok {
      return;
    }
    st, gs, windows := EmbedWindows(eng, index, rows, groupStart, members, reps', groupOf);
    if st == Ok {
      unique := |reps'|;
      GatherAll(groupOf, gs, |reps|);
      ProgressMeans(eng, rows, reps, groupOf, gs, old(StateOf(eng, index)), StateOf(eng, index));
      if DistinctIds(rows) {
        AllDelivered(eng, rows, old(index.vectors), Gather(groupOf, gs));
      }
    }
  }
}
