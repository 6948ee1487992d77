/**
 Vector search over one repository and over all of them. The index is an oracle that answers a fetch of `n`
 with the first `n` entries of one ranking; the filtered search widens its fetch from 64 to 256 until it has
 enough hits, and the search over all repositories merges what each one yields.
 */
module Search {
  import opened Common
  import opened Sorting
  import opened TableSync

  const FILTER_FETCH_FIRST: nat := 64
  const FILTER_FETCH_MAX: nat := 256
  const MERGE_MAX: nat := 64

  /** An entry of a ranking: the row's id and its score. */
  datatype Ranked = Ranked(id: nat, score: real)

  datatype Hit = Hit(repo: string, id: nat, score: real)

  /** A filter that is `None` or negative asks for nothing. */
  datatype Filters = Filters(glob: Option<string>, kind: int, minScore: real)

  /** What a search sees of a repository while it holds the lock. */
  datatype View = View(key: string, ready: bool, isOpen: bool, ranking: seq<Ranked>, table: map<nat, Chunk>)

  predicate Active(f: Option<Filters>) {
    f.Some? && (f.value.glob.Some? || f.value.kind >= 0 || f.value.minScore > 0.0)
  }

  /** `chunk_passes_filters`; `matches` is the path glob matcher. */
  predicate Passes(c: Chunk, score: real, f: Option<Filters>, matches: (string, string) -> bool) {
    f.None? || (
      && !(f.value.minScore > 0.0 && score < f.value.minScore)
      && !(f.value.kind >= 0 && c.kind != f.value.kind)
      && (f.value.glob.Some? && f.value.glob.value != "" ==> matches(f.value.glob.value, c.path)))
  }

  predicate Accepts(v: View, f: Option<Filters>, matches: (string, string) -> bool, x: Ranked) {
    x.id in v.table && Passes(v.table[x.id], x.score, f, matches)
  }

  function Min(a: nat, b: nat): nat {
    if a < b then a else b
  }

  function Top(ranking: seq<Ranked>, n: nat): seq<Ranked> {
    ranking[..Min(n, |ranking|)]
  }

  predicate Seen(ranked: seq<Ranked>, id: nat) {
    exists i :: 0 <= i < |ranked| && ranked[i].id == id
  }

  /** The hits of a ranking: its accepted entries in order, an id once. */
  function HitsOf(v: View, f: Option<Filters>, matches: (string, string) -> bool, ranked: seq<Ranked>): (r: seq<Hit>)
    ensures |r| <= |ranked|
  {
    if ranked == [] then []
    else
      var front, x := ranked[..|ranked| - 1], ranked[|ranked| - 1];
      var before := HitsOf(v, f, matches, front);
      if !Seen(front, x.id) && Accepts(v, f, matches, x) then before + [Hit(v.key, x.id, x.score)] else before
  }

  /** The part of the ranking a search may look at: with a filter the top 256, without one the top `k`. */
  function Window(v: View, k: nat, f: Option<Filters>): seq<Ranked> {
    Top(v.ranking, if Active(f) then FILTER_FETCH_MAX else k)
  }

  /** What a search of one repository yields: the first hits of the window, as many as asked for. */
  function Yield(v: View, k: nat, f: Option<Filters>, matches: (string, string) -> bool, room: nat): (r: seq<Hit>)
    ensures |r| <= room && |r| <= k
  {
    var all := HitsOf(v, f, matches, Window(v, k, f));
    all[..Min(|all|, Min(k, room))]
  }

  lemma {:induction false} HitsGrow(v: View, f: Option<Filters>, matches: (string, string) -> bool, ranked: seq<Ranked>, n: nat)
    requires n <= |ranked|
    ensures HitsOf(v, f, matches, ranked[..n]) <= HitsOf(v, f, matches, ranked)
    decreases |ranked|
  {
    if n < |ranked| {
      HitsGrow(v, f, matches, ranked[..|ranked| - 1], n);
      assert ranked[..|ranked| - 1][..n] == ranked[..n];
    } else {
      assert ranked[..n] == ranked;
    }
  }

  // ---- What an answer is ----

  /** What a row must be to be returned, filter by filter. */
  ghost predicate Meets(v: View, f: Option<Filters>, matches: (string, string) -> bool, x: Ranked) {
    && x.id in v.table
    && (f.Some? && f.value.kind >= 0 ==> v.table[x.id].kind == f.value.kind)
    && (f.Some? && f.value.minScore > 0.0 ==> x.score >= f.value.minScore)
    && (f.Some? && f.value.glob.Some? && f.value.glob.value != "" ==> matches(f.value.glob.value, v.table[x.id].path))
  }

  /** The entry at `p` is the first with its id, and may be returned. */
  ghost predicate Eligible(v: View, f: Option<Filters>, matches: (string, string) -> bool, ranked: seq<Ranked>, p: nat) {
    p < |ranked| && Meets(v, f, matches, ranked[p]) && forall q :: 0 <= q < p ==> ranked[q].id != ranked[p].id
  }

  /** `places` are eligible, in order, and none before `end` is left out. */
  ghost predicate PlacesOf(v: View, f: Option<Filters>, matches: (string, string) -> bool, ranked: seq<Ranked>, places: seq<nat>, end: nat) {
    && (forall j :: 0 <= j < |places| ==> places[j] < end && Eligible(v, f, matches, ranked, places[j]))
    && (forall i, j :: 0 <= i < j < |places| ==> places[i] < places[j])
    && (forall p :: 0 <= p < end && Eligible(v, f, matches, ranked, p) ==> p in places)
  }

  ghost predicate HitsAt(v: View, ranked: seq<Ranked>, places: seq<nat>, hits: seq<Hit>) {
    && |hits| == |places|
    && forall j :: 0 <= j < |places| ==> places[j] < |ranked| && hits[j] == Hit(v.key, ranked[places[j]].id, ranked[places[j]].score)
  }

  /** How far down the ranking a search looks: 256 entries with a filter, `k` without one. */
  ghost function Reach(v: View, k: nat, f: Option<Filters>): nat {
    var n := if f.Some? && (f.value.glob.Some? || f.value.kind >= 0 || f.value.minScore > 0.0) then 256 else k;
    if n < |v.ranking| then n else |v.ranking|
  }

  /** The first eligible entries within reach, in order, as many as asked for and as there is room for. */
  ghost predicate IsAnswer(v: View, k: nat, f: Option<Filters>, matches: (string, string) -> bool, room: nat, hits: seq<Hit>) {
    exists places: seq<nat> ::
      && PlacesOf(v, f, matches, v.ranking, places, Reach(v, k, f))
      && |hits| <= |places| && (|hits| == |places| || |hits| == k || |hits| == room) && |hits| <= k && |hits| <= room
      && HitsAt(v, v.ranking, places[..|hits|], hits)
  }

  lemma PlacesNext(v: View, f: Option<Filters>, matches: (string, string) -> bool, ranked: seq<Ranked>, places: seq<nat>, end: nat)
    requires end < |ranked| && PlacesOf(v, f, matches, ranked, places, end)
    ensures PlacesOf(v, f, matches, ranked, if Eligible(v, f, matches, ranked, end) then places + [end] else places, end + 1)
  {
    if Eligible(v, f, matches, ranked, end) {
      var more := places + [end];
      assert more[|places|] == end;
      forall p | 0 <= p < end + 1 && Eligible(v, f, matches, ranked, p)
        ensures p in more
      {
        assert p < end ==> p in places;
      }
      forall j | 0 <= j < |more|
        ensures more[j] < end + 1 && Eligible(v, f, matches, ranked, more[j]) && (j < |places| ==> more[j] == places[j])
      {}
    }
  }

  /** The next entry is a hit exactly when it is eligible. */
  lemma HitsNext(v: View, f: Option<Filters>, matches: (string, string) -> bool, ranked: seq<Ranked>, end: nat)
    requires end < |ranked|
    ensures HitsOf(v, f, matches, ranked[..end + 1]) ==
            HitsOf(v, f, matches, ranked[..end])
            + if Eligible(v, f, matches, ranked, end) then [Hit(v.key, ranked[end].id, ranked[end].score)] else []
  {
    LastStep(ranked, end);
    var front, x := ranked[..end], ranked[end];
    assert Seen(front, x.id) <==> exists q :: 0 <= q < end && ranked[q].id == x.id by {
      forall q | 0 <= q < end
        ensures front[q] == ranked[q]
      {}
    }
    assert Accepts(v, f, matches, x) <==> Meets(v, f, matches, x);
    NoTail(HitsOf(v, f, matches, front));
  }

  lemma HitsAtNext(v: View, ranked: seq<Ranked>, places: seq<nat>, hits: seq<Hit>, end: nat)
    requires HitsAt(v, ranked, places, hits) && end < |ranked|
    ensures HitsAt(v, ranked, places + [end], hits + [Hit(v.key, ranked[end].id, ranked[end].score)])
  {}

  /** The hits of a front of the ranking stand at its eligible places. */
  lemma {:induction false} HitsHavePlaces(v: View, f: Option<Filters>, matches: (string, string) -> bool, ranked: seq<Ranked>, n: nat)
    returns (places: seq<nat>)
    requires n <= |ranked|
    ensures PlacesOf(v, f, matches, ranked, places, n) && HitsAt(v, ranked, places, HitsOf(v, f, matches, ranked[..n]))
  {
    places := [];
    if n > 0 {
      var end: nat := n - 1;
      places := HitsHavePlaces(v, f, matches, ranked, end);
      PlacesNext(v, f, matches, ranked, places, end);
      HitsNext(v, f, matches, ranked, end);
      if Eligible(v, f, matches, ranked, end) {
        HitsAtNext(v, ranked, places, HitsOf(v, f, matches, ranked[..end]), end);
        places := places + [end];
      } else {
        NoTail(HitsOf(v, f, matches, ranked[..end]));
      }
    }
  }

  /** What a search yields is the answer. */
  lemma YieldIsAnswer(v: View, k: nat, f: Option<Filters>, matches: (string, string) -> bool, room: nat)
    ensures IsAnswer(v, k, f, matches, room, Yield(v, k, f, matches, room))
  {
    var n := Reach(v, k, f);
    var places := HitsHavePlaces(v, f, matches, v.ranking, n);
    assert Window(v, k, f) == v.ranking[..n];
    var hits := Yield(v, k, f, matches, room);
    assert HitsAt(v, v.ranking, places[..|hits|], hits);
  }

  // ---- One repository ----

  /** `hit_id_seen`. */
  method HitIdSeen(seen: seq<nat>, id: nat) returns (found: bool)
    ensures found <==> id in seen
  {
    for i := 0 to |seen|
      invariant id !in seen[..i]
    {
      if seen[i] == id {
        return true;
      }
    }
    assert seen[..|seen|] == seen;
    return false;
  }

  /** The scan has dealt with the ranking up to `i`, and remembers the ids it met up to `high`. */
  ghost predicate Scanned(v: View, f: Option<Filters>, matches: (string, string) -> bool, ranked: seq<Ranked>, high: nat, seen: seq<nat>, out: seq<Hit>) {
    forall n {:trigger Look(n)} :: Look(n) ==>
      && high <= |ranked| && |seen| <= high && out == HitsOf(v, f, matches, ranked[..high])
      && forall id :: id in seen <==> Seen(ranked[..high], id)
  }

  lemma ScanStarts(v: View, f: Option<Filters>, matches: (string, string) -> bool)
    ensures Scanned(v, f, matches, v.ranking, 0, [], [])
  {}

  lemma ScanNext(v: View, f: Option<Filters>, matches: (string, string) -> bool, ranked: seq<Ranked>, high: nat, seen: seq<nat>, out: seq<Hit>)
    requires Scanned(v, f, matches, ranked, high, seen, out) && high < |ranked|
    ensures var x := ranked[high];
      if x.id in seen then Scanned(v, f, matches, ranked, high + 1, seen, out)
      else Scanned(v, f, matches, ranked, high + 1, seen + [x.id],
                   if Accepts(v, f, matches, x) then out + [Hit(v.key, x.id, x.score)] else out)
  {
    assert Look(0);
    var x := ranked[high];
    LastStep(ranked, high);
    forall id
      ensures Seen(ranked[..high + 1], id) <==> Seen(ranked[..high], id) || id == x.id
    {
      SeenNext(ranked[..high], x, id);
    }
  }

  lemma SeenNext(front: seq<Ranked>, x: Ranked, id: nat)
    ensures Seen(front + [x], id) <==> Seen(front, id) || id == x.id
  {
    assert (front + [x])[|front|] == x;
    assert forall i :: 0 <= i < |front| ==> (front + [x])[i] == front[i];
  }

  /** An id already met changes nothing, wherever the scan meets it again. */
  lemma MetAgain(v: View, f: Option<Filters>, matches: (string, string) -> bool, ranked: seq<Ranked>, high: nat, seen: seq<nat>, out: seq<Hit>, i: nat)
    requires Scanned(v, f, matches, ranked, high, seen, out) && i < high && i < |ranked|
    ensures ranked[i].id in seen
  {
    assert Look(0);
    assert ranked[..high][i] == ranked[i];
  }

  /** One more hit in the buffer. */
  method PutHit(hits: array<Hit>, at: nat, found: nat, h: Hit)
    requires at + found < hits.Length
    modifies hits
    ensures hits[at..at + found + 1] == old(hits[at..at + found]) + [h] && hits[..at] == old(hits[..at])
  {
    hits[at + found] := h;
  }

  /** One entry of what a fetch returned. */
  method ScanEntry(v: View, f: Option<Filters>, matches: (string, string) -> bool, i: nat, hits: array<Hit>, at: nat, found: nat,
                   seen: seq<nat>, ghost high: nat)
    returns (found': nat, seen': seq<nat>, ghost high': nat)
    requires i < |v.ranking| && i < FILTER_FETCH_MAX && i <= high && at + found < hits.Length
    requires Scanned(v, f, matches, v.ranking, high, seen, hits[at..at + found])
    modifies hits
    ensures found <= found' <= found + 1 && high' == (if i < high then high else high + 1) && at + found' <= hits.Length
    ensures Scanned(v, f, matches, v.ranking, high', seen', hits[at..at + found'])
    ensures hits[..at] == old(hits[..at])
  {
    found', seen', high' := found, seen, if i < high then high else high + 1;
    var x := v.ranking[i];
    var met := HitIdSeen(seen, x.id);
    if i < high {
      MetAgain(v, f, matches, v.ranking, high, seen, hits[at..at + found], i);
    } else {
      ScanNext(v, f, matches, v.ranking, high, seen, hits[at..at + found]);
    }
    if met {
      return;
    }
    if |seen| < FILTER_FETCH_MAX {
      seen' := seen + [x.id];
    }
    if Accepts(v, f, matches, x) {
      PutHit(hits, at, found, Hit(v.key, x.id, x.score));
      found' := found + 1;
    }
  }

  /** One scan of what a fetch returned: entries met before are passed over, the hits go into the buffer from `at` on. */
  method ScanFetched(v: View, f: Option<Filters>, matches: (string, string) -> bool, n: nat, hits: array<Hit>, at: nat, limit: nat,
                     found: nat, seen: seq<nat>, ghost high: nat)
    returns (found': nat, seen': seq<nat>, ghost high': nat)
    requires n <= |v.ranking| && n <= FILTER_FETCH_MAX && high <= n && found <= limit && at + limit <= hits.Length
    requires Scanned(v, f, matches, v.ranking, high, seen, hits[at..at + found])
    modifies hits
    ensures found' <= limit && high' <= n && Scanned(v, f, matches, v.ranking, high', seen', hits[at..at + found'])
    ensures found' == limit || high' == n
    ensures hits[..at] == old(hits[..at])
  {
    found', seen', high' := found, seen, high;
    var i := 0;
    while i < n && found' < limit
      invariant i <= high' <= n && found' <= limit
      invariant Scanned(v, f, matches, v.ranking, high', seen', hits[at..at + found'])
      invariant hits[..at] == old(hits[..at])
      decreases n - i
    {
      found', seen', high' := ScanEntry(v, f, matches, i, hits, at, found', seen', high');
      i := i + 1;
    }
  }

  /** When a scan may stop, it has what the search yields. */
  lemma ScanIsYield(v: View, k: nat, f: Option<Filters>, matches: (string, string) -> bool, room: nat, high: nat, seen: seq<nat>, out: seq<Hit>)
    requires Scanned(v, f, matches, v.ranking, high, seen, out) && high <= |Window(v, k, f)| && |out| <= Min(k, room)
    requires |out| == Min(k, room) || high == |Window(v, k, f)|
    ensures out == Yield(v, k, f, matches, room)
  {
    assert Look(0);
    var w := Window(v, k, f);
    assert w[..high] == v.ranking[..high];
    HitsGrow(v, f, matches, w, high);
    if high == |w| {
      assert w[..high] == w;
    }
  }

  /** `repo_search_hits`. */
  method RepoSearchHits(v: View, k: nat, f: Option<Filters>, matches: (string, string) -> bool, hits: array<Hit>, at: nat, room: nat)
    returns (st: Status, found: nat)
    requires k <= FILTER_FETCH_MAX && at + room <= hits.Length
    modifies hits
    ensures found <= k && found <= room
    ensures st == Ok ==> v.ready && v.isOpen && hits[at..at + found] == Yield(v, k, f, matches, room)
    ensures !(v.ready && v.isOpen) ==> st == NotFound
    ensures hits[..at] == old(hits[..at])
  {
    found := 0;
    if !v.ready || !v.isOpen {
      return NotFound, 0;
    }
    var filtered := Active(f);
    var fetch := if filtered then FILTER_FETCH_FIRST else k;
    var limit := Min(k, room);
    var seen: seq<nat> := [];
    ghost var high: nat := 0;
    ScanStarts(v, f, matches);
    while true
      invariant fetch <= FILTER_FETCH_MAX && (if filtered then FILTER_FETCH_FIRST <= fetch else fetch == k)
      invariant found <= limit && high <= Min(fetch, |v.ranking|)
      invariant Scanned(v, f, matches, v.ranking, high, seen, hits[at..at + found])
      invariant hits[..at] == old(hits[..at])
      decreases FILTER_FETCH_MAX - fetch
    {
      st := Outcome();
      if st != Ok {
        return;
      }
      var n := Min(fetch, |v.ranking|);
      found, seen, high := ScanFetched(v, f, matches, n, hits, at, limit, found, seen, high);
      if found >= k || !filtered {
        break;
      }
      if n < fetch || fetch >= FILTER_FETCH_MAX {
        break;
      }
      fetch := Min(fetch * 2, FILTER_FETCH_MAX);
    }
    ScanIsYield(v, k, f, matches, room, high, seen, hits[at..at + found]);
  }
}
