/**
 Search over all repositories: each one's hits side by side in one buffer, sorted by score, the best `k` kept.
 Nothing a searched repository could have offered beats a hit that is returned.
 */
module SearchMerge {
  import opened Common
  import opened Sorting
  import opened TableSync
  import opened Search

  /** `hit_score_desc`. */
  predicate Better(a: Hit, b: Hit) {
    a.score >= b.score
  }

  /** The hits of the repositories that answered, one after the other. */
  function Gathered(views: seq<View>, answered: seq<bool>, k: nat, f: Option<Filters>, matches: (string, string) -> bool): seq<Hit>
    requires |views| == |answered|
  {
    if views == [] then []
    else
      var n := |views| - 1;
      Gathered(views[..n], answered[..n], k, f, matches) + if answered[n] then Yield(views[n], k, f, matches, k) else []
  }

  lemma GatheredNext(views: seq<View>, answered: seq<bool>, v: View, yes: bool, k: nat, f: Option<Filters>, matches: (string, string) -> bool)
    requires |views| == |answered|
    ensures Gathered(views + [v], answered + [yes], k, f, matches) ==
      Gathered(views, answered, k, f, matches) + if yes then Yield(v, k, f, matches, k) else []
  {
    assert (views + [v])[..|views|] == views && (answered + [yes])[..|views|] == answered;
  }

  /** The best `k` of some hits, best first. */
  ghost predicate BestOf(out: seq<Hit>, all: seq<Hit>, k: nat) {
    exists sorted: seq<Hit> :: IsRanking(sorted, all) && out == sorted[..Min(k, |sorted|)]
  }

  ghost predicate IsRanking(sorted: seq<Hit>, all: seq<Hit>) {
    SortedBy(sorted, Better) && multiset(sorted) == multiset(all)
  }

  /** Only a ready repository with an open index answers. */
  ghost predicate MayAnswer(views: seq<View>, answered: seq<bool>) {
    |views| == |answered| && forall i :: 0 <= i < |views| && answered[i] ==> views[i].ready && views[i].isOpen
  }

  lemma {:induction false} RoomForOne(i: nat, len: nat, k: nat)
    requires i < len
    ensures (i + 1) * k == i * k + k <= len * k
    decreases len - i
  {
    if i + 1 < len {
      RoomForOne(i + 1, len, k);
    }
  }

  /** One repository: its hits go into the buffer after those of the others. */
  method GatherOne(v: View, k: nat, f: Option<Filters>, matches: (string, string) -> bool, buffer: array<Hit>, n: nat)
    returns (st: Status, n': nat)
    requires k <= MERGE_MAX && n + k <= buffer.Length
    modifies buffer
    ensures n <= n' <= n + k && (st == Ok ==> v.ready && v.isOpen)
    ensures buffer[..n'] == old(buffer[..n]) + if st == Ok then Yield(v, k, f, matches, k) else []
  {
    n' := n;
    var got;
    st, got := RepoSearchHits(v, k, f, matches, buffer, n, k);
    if st == Ok {
      n' := n + got;
      assert buffer[..n'] == buffer[..n] + buffer[n..n'];
    }
  }

  /** The loop over the repositories. */
  method GatherHits(views: seq<View>, k: nat, f: Option<Filters>, matches: (string, string) -> bool)
    returns (st: Status, all: seq<Hit>, searched: nat, ghost answered: seq<bool>)
    requires k <= MERGE_MAX
    ensures st == Ok ==> MayAnswer(views, answered) && all == Gathered(views, answered, k, f, matches)
    ensures st == Ok ==> (searched == 0 <==> forall i :: 0 <= i < |views| ==> !answered[i])
  {
    all, searched, answered := [], 0, [];
    var room: nat := |views| * k;
    var ok := TryAlloc(room);
    if !ok {
      return OutOfMemory, all, 0, answered;
    }
    var unused := Hit("", 0, 0.0);
    var buffer := new Hit[room](i => unused);
    var n: nat := 0;
    for i := 0 to |views|
      invariant n <= i * k && i * k <= room && MayAnswer(views[..i], answered)
      invariant buffer[..n] == Gathered(views[..i], answered, k, f, matches)
      invariant searched == 0 <==> forall j :: 0 <= j < i ==> !answered[j]
    {
      RoomForOne(i, |views|, k);
      var rst;
      rst, n := GatherOne(views[i], k, f, matches, buffer, n);
      LastStep(views, i);
      GatheredNext(views[..i], answered, views[i], rst == Ok, k, f, matches);
      if rst == Ok {
        searched := searched + 1;
      } else if rst != NotFound {
        return rst, all, searched, answered;
      }
      answered := answered + [rst == Ok];
    }
    assert views[..|views|] == views;
    return Ok, buffer[..n], searched, answered;
  }

  /** The last loop: the front of the sorted hits. */
  method CopyFront(sorted: seq<Hit>, k: nat, hits: array<Hit>) returns (found: nat)
    requires k <= hits.Length
    modifies hits
    ensures found == Min(k, |sorted|) && hits[..found] == sorted[..found]
  {
    found := 0;
    while found < |sorted| && found < k
      invariant found <= |sorted| && found <= k && hits[..found] == sorted[..found]
    {
      hits[found] := sorted[found];
      found := found + 1;
    }
  }

  /** `cberg_engine_search_hits`, once the query is embedded; `repo` names the only repository to search, if there is one. */
  method SearchHits(views: seq<View>, repo: Option<string>, want: nat, cap: nat, f: Option<Filters>, matches: (string, string) -> bool, hits: array<Hit>)
    returns (st: Status, found: nat, ghost answered: seq<bool>)
    requires cap <= hits.Length
    modifies hits
    ensures found <= Min(Min(want, cap), 64)
    ensures st == Ok && Min(want, cap) > 0 && OnlyRepo(views, repo).Some? ==>
      hits[..found] == Yield(views[OnlyRepo(views, repo).value], Min(Min(want, cap), 64), f, matches, cap)
    ensures st == Ok && Min(want, cap) > 0 && OnlyRepo(views, repo).None? ==>
      && NoRepoNamed(repo) && MayAnswer(views, answered) && (exists i :: 0 <= i < |views| && answered[i])
      && BestOf(hits[..found], Gathered(views, answered, Min(Min(want, cap), 64), f, matches), Min(Min(want, cap), 64))
  {
    found, answered := 0, [];
    if cap == 0 || want == 0 {
      return Ok, 0, answered;
    }
    var k := Min(Min(want, cap), MERGE_MAX);
    var only := FindRepo(views, repo);
    if only.None? && !NoRepoNamed(repo) {
      return NotFound, 0, answered;
    }
    if only.Some? {
      st, found := RepoSearchHits(views[only.value], k, f, matches, hits, 0, cap);
      return;
    }
    var all, searched;
    st, all, searched, answered := GatherHits(views, k, f, matches);
    if st != Ok {
      return;
    }
    if searched == 0 {
      return NotFound, 0, answered;
    }
    assert TotalPreorder(Better);
    var sorted := QSort(all, Better);
    found := CopyFront(sorted, k, hits);
    assert IsRanking(sorted, all);
  }

  predicate NoRepoNamed(repo: Option<string>) {
    repo.None? || repo.value == ""
  }

  /** The first repository with the name. */
  function OnlyRepo(views: seq<View>, repo: Option<string>): (r: Option<nat>)
    ensures r.Some? ==> r.value < |views| && !NoRepoNamed(repo) && views[r.value].key == repo.value
  {
    if NoRepoNamed(repo) then None else FirstNamed(views, repo.value, 0)
  }

  function FirstNamed(views: seq<View>, key: string, i: nat): (r: Option<nat>)
    requires i <= |views|
    ensures if r.Some? then r.value < |views| && views[r.value].key == key else forall j :: i <= j < |views| ==> views[j].key != key
    decreases |views| - i
  {
    if i == |views| then None else if views[i].key == key then Some(i) else FirstNamed(views, key, i + 1)
  }

  /** `find_repo`. */
  method FindRepo(views: seq<View>, repo: Option<string>) returns (r: Option<nat>)
    ensures r == OnlyRepo(views, repo)
  {
    if repo.None? || repo.value == "" {
      return None;
    }
    for i := 0 to |views|
      invariant FirstNamed(views, repo.value, i) == FirstNamed(views, repo.value, 0)
    {
      if views[i].key == repo.value {
        return Some(i);
      }
    }
    return None;
  }

  // ---- Nothing better was left out ----

  ghost predicate ScoresFall(ranked: seq<Ranked>) {
    forall i, j :: 0 <= i < j < |ranked| ==> ranked[i].score >= ranked[j].score
  }

  /** Hits keep the order of the ranking. */
  lemma {:induction false} HitsFall(v: View, f: Option<Filters>, matches: (string, string) -> bool, ranked: seq<Ranked>)
    requires ScoresFall(ranked)
    ensures SortedBy(HitsOf(v, f, matches, ranked), Better)
    ensures ranked != [] ==> forall i :: 0 <= i < |HitsOf(v, f, matches, ranked)| ==> HitsOf(v, f, matches, ranked)[i].score >= ranked[|ranked| - 1].score
  {
    if ranked != [] {
      HitsFall(v, f, matches, ranked[..|ranked| - 1]);
    }
  }

  function AtLeast(bound: real): Hit -> bool {
    (h: Hit) => h.score >= bound
  }

  /** How many hits score `bound` or more. */
  function Strong(hits: seq<Hit>, bound: real): nat {
    multiset(Map(AtLeast(bound), hits))[true]
  }

  lemma StrongParts(a: seq<Hit>, b: seq<Hit>, c: seq<Hit>, bound: real)
    ensures Strong(a + b + c, bound) == Strong(a, bound) + Strong(b, bound) + Strong(c, bound)
  {
    var g := AtLeast(bound);
    assert Map(g, a + b + c) == Map(g, a) + Map(g, b) + Map(g, c);
  }

  lemma {:induction false} TrueCount(s: seq<bool>)
    ensures multiset(s)[true] <= |s|
    ensures (forall i :: 0 <= i < |s| ==> s[i]) ==> multiset(s)[true] == |s|
    ensures (forall i :: 0 <= i < |s| ==> !s[i]) ==> multiset(s)[true] == 0
  {
    if s != [] {
      TrueCount(s[1..]);
      HeadMultiset(s);
    }
  }

  lemma AllStrong(hits: seq<Hit>, bound: real)
    requires forall i :: 0 <= i < |hits| ==> hits[i].score >= bound
    ensures Strong(hits, bound) == |hits|
  {
    TrueCount(Map(AtLeast(bound), hits));
  }

  /** If `k` hits are strong, the first `k` of the sorted ones are. */
  lemma FrontIsStrong(sorted: seq<Hit>, bound: real, k: nat, j: nat)
    requires SortedBy(sorted, Better) && Strong(sorted, bound) >= k && j < k && j < |sorted|
    ensures sorted[j].score >= bound
  {
    if sorted[j].score < bound {
      var marks := Map(AtLeast(bound), sorted);
      assert forall i :: j < i < |sorted| ==> Better(sorted[j], sorted[i]);
      assert forall i :: 0 <= i < |marks[j..]| ==> !marks[j..][i];
      assert marks == marks[..j] + marks[j..];
      TrueCount(marks[..j]);
      TrueCount(marks[j..]);
    }
  }

  /** What a repository that answered yields is a stretch of what was gathered. */
  lemma {:induction false} YieldIsStretch(views: seq<View>, answered: seq<bool>, k: nat, f: Option<Filters>, matches: (string, string) -> bool, i: nat)
    returns (a: seq<Hit>, c: seq<Hit>)
    requires |views| == |answered| && i < |views| && answered[i]
    ensures Gathered(views, answered, k, f, matches) == a + Yield(views[i], k, f, matches, k) + c
    decreases |views|
  {
    var n := |views| - 1;
    if i == n {
      a, c := Gathered(views[..n], answered[..n], k, f, matches), [];
      NoTail(a + Yield(views[i], k, f, matches, k));
    } else {
      a, c := YieldIsStretch(views[..n], answered[..n], k, f, matches, i);
      var last := if answered[n] then Yield(views[n], k, f, matches, k) else [];
      Regroup(a + Yield(views[i], k, f, matches, k), c, last);
      c := c + last;
    }
  }

  /** A stretch of `k` strong hits makes the best `k` strong. */
  lemma StretchWins(all: seq<Hit>, sorted: seq<Hit>, a: seq<Hit>, mine: seq<Hit>, c: seq<Hit>, k: nat, bound: real)
    requires IsRanking(sorted, all) && all == a + mine + c && |mine| == k
    requires forall i :: 0 <= i < k ==> mine[i].score >= bound
    ensures k <= |sorted| && forall j :: 0 <= j < k ==> sorted[j].score >= bound
  {
    AllStrong(mine, bound);
    StrongParts(a, mine, c, bound);
    MapPermuted(AtLeast(bound), all, sorted);
    TrueCount(Map(AtLeast(bound), sorted));
    forall j | 0 <= j < k
      ensures sorted[j].score >= bound
    {
      FrontIsStrong(sorted, bound, k, j);
    }
  }

  /** A hit the search of one repository cut off leaves `k` hits that score no less. */
  lemma CutOff(v: View, k: nat, f: Option<Filters>, matches: (string, string) -> bool, h: Hit)
    requires ScoresFall(v.ranking) && h in HitsOf(v, f, matches, Window(v, k, f)) && h !in Yield(v, k, f, matches, k)
    ensures |Yield(v, k, f, matches, k)| == k && forall i :: 0 <= i < k ==> Yield(v, k, f, matches, k)[i].score >= h.score
  {
    var window, mine := HitsOf(v, f, matches, Window(v, k, f)), Yield(v, k, f, matches, k);
    HitsFall(v, f, matches, Window(v, k, f));
    var p :| 0 <= p < |window| && window[p] == h;
    assert forall q :: 0 <= q < |mine| ==> mine[q] == window[q] && window[q] in mine;
    assert forall i :: 0 <= i < k ==> Better(window[i], window[p]);
  }

  /**
   Take any repository that answered and any hit its window holds, returned by its own search or not: either it is
   among the returned, or there are `k` of them and none scores less.
   */
  lemma MergeIsBest(views: seq<View>, answered: seq<bool>, k: nat, f: Option<Filters>, matches: (string, string) -> bool, out: seq<Hit>, i: nat, h: Hit)
    requires |views| == |answered| && i < |views| && answered[i] && ScoresFall(views[i].ranking)
    requires BestOf(out, Gathered(views, answered, k, f, matches), k)
    requires h in HitsOf(views[i], f, matches, Window(views[i], k, f))
    ensures h in out || (|out| == k && forall j :: 0 <= j < |out| ==> out[j].score >= h.score)
  {
    var all := Gathered(views, answered, k, f, matches);
    var sorted: seq<Hit> :| IsRanking(sorted, all) && out == sorted[..Min(k, |sorted|)];
    var mine := Yield(views[i], k, f, matches, k);
    var a, c := YieldIsStretch(views, answered, k, f, matches, i);
    if h in mine {
      assert h in all;
      SameElements(all, sorted);
      InRanking(sorted, h, k);
    } else {
      CutOff(views[i], k, f, matches, h);
      StretchWins(all, sorted, a, mine, c, k, h.score);
    }
  }

  /** The hit of an eligible entry within reach is one of its window's. */
  lemma EligibleIsHit(v: View, k: nat, f: Option<Filters>, matches: (string, string) -> bool, p: nat)
    requires p < Reach(v, k, f) && Eligible(v, f, matches, v.ranking, p)
    ensures Hit(v.key, v.ranking[p].id, v.ranking[p].score) in HitsOf(v, f, matches, Window(v, k, f))
  {
    var n := Reach(v, k, f);
    var places := HitsHavePlaces(v, f, matches, v.ranking, n);
    assert Window(v, k, f) == v.ranking[..n];
    var j :| 0 <= j < |places| && places[j] == p;
    assert HitsOf(v, f, matches, Window(v, k, f))[j] == Hit(v.key, v.ranking[p].id, v.ranking[p].score);
  }

  /**
   The same of the entries themselves: whatever row of a repository that answered is within reach and passes every
   filter asked for is returned, or `k` hits are that score no less.
   */
  lemma MergeLeavesNothingBetter(views: seq<View>, answered: seq<bool>, k: nat, f: Option<Filters>, matches: (string, string) -> bool, out: seq<Hit>,
                                 i: nat, p: nat)
    requires |views| == |answered| && i < |views| && answered[i] && ScoresFall(views[i].ranking)
    requires BestOf(out, Gathered(views, answered, k, f, matches), k)
    requires p < Reach(views[i], k, f) && Eligible(views[i], f, matches, views[i].ranking, p)
    ensures var h := Hit(views[i].key, views[i].ranking[p].id, views[i].ranking[p].score);
            h in out || (|out| == k && forall j :: 0 <= j < |out| ==> out[j].score >= h.score)
  {
    EligibleIsHit(views[i], k, f, matches, p);
    MergeIsBest(views, answered, k, f, matches, out, i, Hit(views[i].key, views[i].ranking[p].id, views[i].ranking[p].score));
  }

  /** A hit some repository's search yielded stands at an eligible entry. */
  lemma YieldIsEligible(v: View, k: nat, f: Option<Filters>, matches: (string, string) -> bool, h: Hit) returns (p: nat)
    requires h in Yield(v, k, f, matches, k)
    ensures p < Reach(v, k, f) && Eligible(v, f, matches, v.ranking, p) && h == Hit(v.key, v.ranking[p].id, v.ranking[p].score)
  {
    var n := Reach(v, k, f);
    var places := HitsHavePlaces(v, f, matches, v.ranking, n);
    assert Window(v, k, f) == v.ranking[..n];
    var all := HitsOf(v, f, matches, Window(v, k, f));
    var j :| 0 <= j < |all| && all[j] == h;
    p := places[j];
  }

  lemma {:induction false} GatheredFrom(views: seq<View>, answered: seq<bool>, k: nat, f: Option<Filters>, matches: (string, string) -> bool, h: Hit)
    returns (i: nat)
    requires |views| == |answered| && h in Gathered(views, answered, k, f, matches)
    ensures i < |views| && answered[i] && h in Yield(views[i], k, f, matches, k)
  {
    var n := |views| - 1;
    if answered[n] && h in Yield(views[n], k, f, matches, k) {
      i := n;
    } else {
      i := GatheredFrom(views[..n], answered[..n], k, f, matches, h);
    }
  }

  /** What is returned over all repositories: best first, each a row of one that answered, within reach, that passes every filter asked for. */
  lemma MergedHitIs(views: seq<View>, answered: seq<bool>, k: nat, f: Option<Filters>, matches: (string, string) -> bool, out: seq<Hit>, j: nat)
    returns (i: nat, p: nat)
    requires |views| == |answered| && BestOf(out, Gathered(views, answered, k, f, matches), k) && j < |out|
    ensures |out| <= k && forall a, b :: 0 <= a < b < |out| ==> out[a].score >= out[b].score
    ensures i < |views| && answered[i] && p < Reach(views[i], k, f) && Eligible(views[i], f, matches, views[i].ranking, p)
    ensures out[j] == Hit(views[i].key, views[i].ranking[p].id, views[i].ranking[p].score)
  {
    var all := Gathered(views, answered, k, f, matches);
    var sorted: seq<Hit> :| IsRanking(sorted, all) && out == sorted[..Min(k, |sorted|)];
    assert forall a, b :: 0 <= a < b < |out| ==> Better(sorted[a], sorted[b]);
    assert sorted[j] in multiset(all);
    i := GatheredFrom(views, answered, k, f, matches, out[j]);
    p := YieldIsEligible(views[i], k, f, matches, out[j]);
  }

  lemma InRanking(sorted: seq<Hit>, h: Hit, k: nat)
    requires SortedBy(sorted, Better) && h in sorted
    ensures h in sorted[..Min(k, |sorted|)] || (k < |sorted| && forall j :: 0 <= j < k ==> sorted[j].score >= h.score)
  {
    var p :| 0 <= p < |sorted| && sorted[p] == h;
    if p < k {
      assert sorted[..Min(k, |sorted|)][p] == h;
    } else {
      assert forall j :: 0 <= j < k ==> Better(sorted[j], sorted[p]);
    }
  }

  // ---- An index that agrees with its table ----

  /** With distinct ids the hits are just the accepted entries. */
  lemma {:induction false} HitsAreAccepted(v: View, f: Option<Filters>, matches: (string, string) -> bool, ranked: seq<Ranked>)
    requires forall i, j :: 0 <= i < j < |ranked| ==> ranked[i].id != ranked[j].id
    requires forall i :: 0 <= i < |ranked| ==> Accepts(v, f, matches, ranked[i])
    ensures |HitsOf(v, f, matches, ranked)| == |ranked|
    ensures forall i :: 0 <= i < |ranked| ==> HitsOf(v, f, matches, ranked)[i] == Hit(v.key, ranked[i].id, ranked[i].score)
  {
    if ranked != [] {
      HitsAreAccepted(v, f, matches, ranked[..|ranked| - 1]);
    }
  }

  /** Where every indexed id is in the table, a search without filters loses nothing: it yields the top `k`. */
  lemma AgreedSearchIsFull(v: View, k: nat, matches: (string, string) -> bool)
    requires forall i, j :: 0 <= i < j < |v.ranking| ==> v.ranking[i].id != v.ranking[j].id
    requires forall i :: 0 <= i < |v.ranking| ==> v.ranking[i].id in v.table
    ensures |Yield(v, k, None, matches, k)| == Min(k, |v.ranking|)
    ensures forall i :: 0 <= i < Min(k, |v.ranking|) ==> Yield(v, k, None, matches, k)[i] == Hit(v.key, v.ranking[i].id, v.ranking[i].score)
  {
    HitsAreAccepted(v, None, matches, Window(v, k, None));
  }
}
