/**
 The watcher's dirty set: file events merge per path until a drain hands every path over once.
 A report is an event whose merge succeeded; `reports` lists those since the last successful drain.
 */
module Watcher {
  import opened Common
  import opened StrMaps

  datatype Kind = Modify | Create | Delete | Rename

  datatype Report = Report(path: string, kind: Kind)

  /** `cberg_watch_kind`, as the map stores it. */
  function Code(k: Kind): nat {
    match k case Modify => 1 case Create => 2 case Delete => 3 case Rename => 4
  }

  function Decoded(n: nat): Kind {
    if n == 1 then Modify else if n == 2 then Create else if n == 3 then Delete else Rename
  }

  /** `kind_merge`. */
  function KindMerge(existing: Kind, incoming: Kind): Kind {
    if incoming == Delete then Delete
    else if existing == Delete && incoming == Create then Create
    else if existing == Delete then Delete
    else incoming
  }

  /** The dirty set after a list of reports. */
  function Dirty(reports: seq<Report>): map<string, Kind> {
    if reports == [] then map[]
    else
      var (before, r) := (Dirty(reports[..|reports| - 1]), reports[|reports| - 1]);
      before[r.path := if r.path in before then KindMerge(before[r.path], r.kind) else r.kind]
  }

  /** Some deletion of the path has no creation after it. */
  ghost predicate StaysDeleted(reports: seq<Report>, path: string) {
    exists i :: 0 <= i < |reports| && reports[i] == Report(path, Delete)
                && forall j :: i < j < |reports| ==> reports[j] != Report(path, Create)
  }

  /** The last report of the path. */
  ghost predicate LastKind(reports: seq<Report>, path: string, k: Kind) {
    exists i :: 0 <= i < |reports| && reports[i] == Report(path, k)
                && forall j :: i < j < |reports| ==> reports[j].path != path
  }

  ghost predicate Reported(reports: seq<Report>, path: string) {
    exists i :: 0 <= i < |reports| && reports[i].path == path
  }

  lemma ReportedNext(reports: seq<Report>, r: Report, path: string)
    ensures Reported(reports + [r], path) <==> Reported(reports, path) || r.path == path
  {
    var all := reports + [r];
    if Reported(reports, path) {
      var i :| 0 <= i < |reports| && reports[i].path == path;
      assert all[i].path == path;
    }
    if r.path == path {
      assert all[|reports|].path == path;
    }
  }

  lemma StaysDeletedNext(reports: seq<Report>, r: Report, path: string)
    ensures StaysDeleted(reports + [r], path) <==> r == Report(path, Delete) || (StaysDeleted(reports, path) && r != Report(path, Create))
  {
    var all := reports + [r];
    if r == Report(path, Delete) {
      assert all[|reports|] == r;
    }
    if StaysDeleted(reports, path) && r != Report(path, Create) {
      var i :| 0 <= i < |reports| && reports[i] == Report(path, Delete) && forall j :: i < j < |reports| ==> reports[j] != Report(path, Create);
      assert all[i] == Report(path, Delete);
    }
    if StaysDeleted(all, path) && r != Report(path, Delete) {
      var i :| 0 <= i < |all| && all[i] == Report(path, Delete) && forall j :: i < j < |all| ==> all[j] != Report(path, Create);
      assert reports[i] == all[i] && all[|reports|] == r;
      assert forall j :: i < j < |reports| ==> reports[j] == all[j];
    }
  }

  lemma LastKindNext(reports: seq<Report>, r: Report, path: string, k: Kind)
    ensures LastKind(reports + [r], path, k) <==> r == Report(path, k) || (r.path != path && LastKind(reports, path, k))
  {
    var all := reports + [r];
    if r == Report(path, k) {
      assert all[|reports|] == r;
    }
    if r.path != path && LastKind(reports, path, k) {
      var i :| 0 <= i < |reports| && reports[i] == Report(path, k) && forall j :: i < j < |reports| ==> reports[j].path != path;
      assert all[i] == Report(path, k);
    }
    if LastKind(all, path, k) && r != Report(path, k) {
      var i :| 0 <= i < |all| && all[i] == Report(path, k) && forall j :: i < j < |all| ==> all[j].path != path;
      assert reports[i] == all[i] && all[|reports|] == r;
      assert forall j :: i < j < |reports| ==> reports[j] == all[j];
    }
  }

  /**
   What a drain delivers for a path: every reported path and no other; as a deletion exactly when some
   deletion has no later creation, and otherwise as the kind last reported.
   */
  lemma {:induction false} DirtyMeans(reports: seq<Report>, path: string)
    ensures path in Dirty(reports) <==> Reported(reports, path)
    ensures path in Dirty(reports) ==> (Dirty(reports)[path] == Delete <==> StaysDeleted(reports, path))
    ensures path in Dirty(reports) && !StaysDeleted(reports, path) ==> LastKind(reports, path, Dirty(reports)[path])
  {
    if reports != [] {
      var before, r := reports[..|reports| - 1], reports[|reports| - 1];
      DirtyMeans(before, path);
      assert reports == before + [r];
      ReportedNext(before, r, path);
      StaysDeletedNext(before, r, path);
      if path in Dirty(reports) {
        LastKindNext(before, r, path, Dirty(reports)[path]);
      }
    }
  }

  function Codes(m: map<string, Kind>): map<string, nat> {
    map p | p in m :: Code(m[p])
  }

  datatype Event = Event(path: string, kind: Kind)

  /** The events are the dirty set: each path once, with its kind. */
  ghost predicate Delivers(events: seq<Event>, m: map<string, Kind>) {
    && (forall i :: 0 <= i < |events| ==> events[i].path in m && events[i].kind == m[events[i].path])
    && (forall p :: p in m ==> Event(p, m[p]) in events)
    && (forall i, j :: 0 <= i < j < |events| ==> events[i].path != events[j].path)
  }

  class Watcher {
    const fnv1a: string -> nat

    /** Null until the first report. */
    var dirty: StrMap?

    /** The first failure, kept for the next poll. */
    var error: Status

    ghost var reports: seq<Report>

    ghost function Repr(): set<object>
      reads this, dirty
    {
      {this} + if dirty == null then {} else dirty.Repr()
    }

    /** The set holds exactly what the reports merge to. */
    ghost predicate Valid()
      reads this, dirty, if dirty == null then {} else dirty.Repr()
    {
      if dirty == null then reports == []
      else this !in dirty.Repr() && Holds(dirty, reports)
    }

    constructor (fnv1a: string -> nat)
      ensures Valid() && fresh(Repr()) && reports == [] && error == Ok
    {
      this.fnv1a, dirty, error, reports := fnv1a, null, Ok, [];
    }

    /** `watch_note_error`. */
    method NoteError(st: Status)
      modifies this`error
      ensures error == if st != Ok && old(error) == Ok then st else old(error)
    {
      if st != Ok && error == Ok {
        error := st;
      }
    }

    /** The merge of `watch_dirty_add`, once the map exists. */
    method Merge(m: StrMap, rel: string, kind: Kind, ghost before: seq<Report>) returns (st: Status)
      requires Holds(m, before)
      modifies m.Repr()
      ensures fresh(m.Repr() - old(m.Repr())) && (st == Ok || st == OutOfMemory)
      ensures Holds(m, if st == Ok then before + [Report(rel, kind)] else before)
    {
      Opens(m, before);
      MergedCodes(before, rel, kind);
      var existing := m.Get(rel);
      var merged := if existing.Some? then KindMerge(Decoded(existing.value), kind) else kind;
      st := m.Set(rel, Code(merged));
      Closes(m, if st == Ok then before + [Report(rel, kind)] else before);
    }

    /** The map `watch_dirty_add` creates on the first report. */
    method EnsureMap() returns (st: Status)
      requires Valid()
      modifies this
      ensures Valid() && fresh(Repr() - old(Repr())) && reports == old(reports)
      ensures st == if dirty == null then OutOfMemory else Ok
      ensures error == old(error)
    {
      if dirty == null {
        dirty := NewStrMap(fnv1a, 256);
        if dirty == null {
          return OutOfMemory;
        }
        assert Codes(map[]) == map[];
        Closes(dirty, []);
      }
      st := Ok;
    }

    /** `watch_dirty_add`: a report joins the set, or an error is noted and the set is as before. The empty path is ignored. */
    method Add(rel: string, kind: Kind) returns (st: Status)
      requires Valid()
      modifies Repr()
      ensures Valid() && fresh(Repr() - old(Repr())) && (st == Ok || st == OutOfMemory)
      ensures reports == if st == Ok && rel != "" then old(reports) + [Report(rel, kind)] else old(reports)
      ensures st != Ok ==> error != Ok
    {
      if rel == "" {
        return Ok;
      }
      st := EnsureMap();
      if st == Ok {
        st := Merge(dirty, rel, kind, reports);
        if st == Ok {
          reports := reports + [Report(rel, kind)];
        }
      }
      NoteError(st);
    }

    /** `dirty_stage_visit` over the set: a copy of every entry, or out of memory. */
    method Stage(m: StrMap, ghost rs: seq<Report>) returns (st: Status, events: seq<Event>)
      requires Holds(m, rs)
      ensures st == Ok || st == OutOfMemory
      ensures st == Ok ==> Delivers(events, Dirty(rs))
    {
      Opens(m, rs);
      var items := m.Visit();
      var ok := TryAlloc(|items|);
      st := if ok then Ok else OutOfMemory;
      events := seq(|items|, i requires 0 <= i < |items| => Event(items[i].0, Decoded(items[i].1)));
      EveryPathStaged(items, m.Contents, events, Dirty(rs));
    }

    /** Emptying the set starts the reports anew. */
    method Forget(m: StrMap)
      requires m.Valid()
      modifies m.Repr()
      ensures m.Repr() == old(m.Repr()) && Holds(m, [])
    {
      m.Clear();
      assert Codes(map[]) == map[];
      Closes(m, []);
    }

    /**
     `watch_dirty_drain`: on success every path reported since the last successful drain is handed over exactly
     once (or, without buffers, only counted); a buffer that is too small and a failed copy lose nothing.
     */
    method Drain(transfer: bool, cap: nat) returns (st: Status, events: seq<Event>, count: nat)
      requires Valid()
      modifies Repr()
      ensures Valid() && fresh(Repr() - old(Repr())) && (st == Ok || st == OutOfMemory || st == InvalidArgument)
      ensures st == Ok ==> reports == [] && count == |Dirty(old(reports))|
      ensures st == Ok && transfer ==> Delivers(events, Dirty(old(reports))) && |events| == count
      ensures st != Ok ==> reports == old(reports) && count == 0
      ensures st == InvalidArgument ==> transfer && cap < |Dirty(reports)|
      ensures st == Ok && transfer && old(reports) != [] ==> count <= cap
    {
      events, count := [], 0;
      if dirty == null {
        return Ok, events, count;
      }
      ghost var before := reports;
      var staged;
      st, staged := Stage(dirty, reports);
      if st != Ok {
        NoteError(st);
        return;
      }
      st, events, count := HandOver(dirty, staged, transfer, cap, before);
      if st == Ok {
        reports := [];
      }
    }

    /** The staged events go to the caller and the set is emptied, unless they do not fit. */
    method HandOver(m: StrMap, staged: seq<Event>, transfer: bool, cap: nat, ghost rs: seq<Report>)
      returns (st: Status, events: seq<Event>, count: nat)
      requires Holds(m, rs) && Delivers(staged, Dirty(rs))
      modifies m.Repr()
      ensures m.Repr() == old(m.Repr()) && Holds(m, if st == Ok then [] else rs)
      ensures st == (if transfer && |Dirty(rs)| > cap then InvalidArgument else Ok)
      ensures count == (if st == Ok then |Dirty(rs)| else 0) && events == (if st == Ok && transfer then staged else [])
      ensures |staged| == |Dirty(rs)|
    {
      DeliversCount(staged, Dirty(rs));
      if transfer && |staged| > cap {
        return InvalidArgument, [], 0;
      }
      Opens(m, rs);
      Forget(m);
      st, events, count := Ok, if transfer then staged else [], |staged|;
    }
  }

  /** The map is valid and holds what the reports merge to. */
  ghost predicate Holds(m: StrMap, reports: seq<Report>)
    reads m, m.Repr()
  {
    forall n {:trigger Look(n)} :: Look(n) ==> m.Valid() && m.Contents == Codes(Dirty(reports))
  }

  lemma Opens(m: StrMap, reports: seq<Report>)
    requires Holds(m, reports)
    ensures m.Valid() && m.Contents == Codes(Dirty(reports))
  {
    assert Look(0);
  }

  lemma Closes(m: StrMap, reports: seq<Report>)
    requires m.Valid() && m.Contents == Codes(Dirty(reports))
    ensures Holds(m, reports)
  {}

  /** Each entry of the map becomes an event. */
  lemma EveryPathStaged(items: seq<(string, nat)>, contents: map<string, nat>, events: seq<Event>, d: map<string, Kind>)
    requires contents == Codes(d) && |events| == |items| && forall p :: p in contents ==> (p, contents[p]) in items
    requires forall i :: 0 <= i < |items| ==> events[i] == Event(items[i].0, Decoded(items[i].1))
    ensures forall p :: p in d ==> Event(p, d[p]) in events
  {
    forall p | p in d
      ensures Event(p, d[p]) in events
    {
      assert (p, contents[p]) in items;
      var i :| 0 <= i < |items| && items[i] == (p, contents[p]);
      assert events[i] == Event(p, d[p]);
    }
  }

  /** Merging one report is one write to the map. */
  lemma MergedCodes(before: seq<Report>, rel: string, kind: Kind)
    ensures Codes(Dirty(before + [Report(rel, kind)]))
         == (var codes := Codes(Dirty(before)); codes[rel := Code(if rel in codes then KindMerge(Decoded(codes[rel]), kind) else kind)])
  {
    assert (before + [Report(rel, kind)])[..|before|] == before;
  }

  /** Delivering each path once is delivering as many events as there are paths. */
  lemma {:induction false} DeliversCount(events: seq<Event>, m: map<string, Kind>)
    requires Delivers(events, m)
    ensures |events| == |m|
  {
    if events == [] {
      assert m == map[];
    } else {
      var n := |events| - 1;
      var m' := m - {events[n].path};
      assert m.Keys == m'.Keys + {events[n].path};
      forall p | p in m'
        ensures Event(p, m'[p]) in events[..n]
      {
        assert Event(p, m[p]) in events;
        var i :| 0 <= i < |events| && events[i] == Event(p, m[p]);
        assert events[..n][i] == events[i];
      }
      DeliversCount(events[..n], m');
      assert |m.Keys| == |m'.Keys| + 1;
      assert |m| == |m.Keys| && |m'| == |m'.Keys|;
    }
  }
}
