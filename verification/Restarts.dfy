/**
 The chunk table over the life of its process and after: syncs, saves that may fail, and restarts that load
 whatever the file holds. The bytes on disk refine a log of the batches that survive.
 */
module Restarts {
  import opened Common
  import opened TableSync
  import opened TableTheorems
  import opened Fingerprints
  import opened Snapshots
  import opened SnapshotFiles

  /** A committed sync, a save attempt, or the process ending and a new one starting. */
  datatype Event = Commit(batch: seq<Chunk>) | Save(ok: bool) | Restart

  /** The table in memory, and the snapshot file. */
  datatype Process = Process(rows: Rows, nextId: nat, file: Option<Bytes>)

  /** The table a start finds: that of the file, or an empty one when there is no whole snapshot. */
  ghost function Start(file: Option<Bytes>): Process {
    if file.Some? && Decode(file.value).Some? then
      var d := Decode(file.value).value;
      Process(CopiedRows(d.rows), d.nextId, file)
    else Process([], 1, file)
  }

  ghost function Next(p: Process, e: Event): Process {
    match e
    case Commit(batch) =>
      var s := Sync(p.rows, p.nextId, batch);
      Process(s.entries, s.nextId, p.file)
    case Save(ok) => if ok && StorableTable(p.rows, p.nextId) then p.(file := Some(Encode(p.rows, p.nextId))) else p
    case Restart => Start(p.file)
  }

  ghost function Life(es: seq<Event>): Process {
    if es == [] then Start(None) else Next(Life(es[..|es| - 1]), es[|es| - 1])
  }

  /** The batches behind the table in memory, and behind the one in the file. */
  datatype Log = Log(live: seq<seq<Chunk>>, saved: Option<seq<seq<Chunk>>>)

  ghost function TableOf(batches: seq<seq<Chunk>>): Synced {
    Run([], 1, batches)
  }

  ghost predicate CanSave(batches: seq<seq<Chunk>>) {
    StorableTable(TableOf(batches).entries, TableOf(batches).nextId)
  }

  ghost function NextLog(l: Log, e: Event): Log {
    match e
    case Commit(batch) => l.(live := l.live + [batch])
    case Save(ok) => if ok && CanSave(l.live) then l.(saved := Some(l.live)) else l
    case Restart => l.(live := if l.saved.Some? then l.saved.value else [])
  }

  ghost function LogOf(es: seq<Event>): Log {
    if es == [] then Log([], None) else NextLog(LogOf(es[..|es| - 1]), es[|es| - 1])
  }

  /** The process is where the log says. */
  ghost predicate Follows(p: Process, l: Log) {
    && p.rows == TableOf(l.live).entries && p.nextId == TableOf(l.live).nextId
    && if l.saved.None? then p.file == None
       else CanSave(l.saved.value) && p.file == Some(Encode(TableOf(l.saved.value).entries, TableOf(l.saved.value).nextId))
  }

  lemma NextFollows(p: Process, l: Log, e: Event)
    requires Follows(p, l)
    ensures Follows(Next(p, e), NextLog(l, e))
  {
    match e
    case Commit(batch) =>
      assert (l.live + [batch])[..|l.live|] == l.live;
    case Save(_) =>
    case Restart =>
      if l.saved.Some? {
        StartFindsSaved(TableOf(l.saved.value).entries, TableOf(l.saved.value).nextId);
      }
  }

  lemma StartFindsSaved(rows: Rows, nextId: nat)
    requires StorableTable(rows, nextId)
    ensures Start(Some(Encode(rows, nextId))) == Process(rows, nextId, Some(Encode(rows, nextId)))
  {
    DecodeEncode(rows, nextId, []);
    assert Encode(rows, nextId) + [] == Encode(rows, nextId);
    CopyIsWhole(rows);
  }

  /** Whatever happens, the table is that of the batches committed up to the last save before the last restart, and since. */
  lemma {:induction false} LifeFollowsLog(es: seq<Event>)
    ensures Follows(Life(es), LogOf(es))
  {
    if es != [] {
      LifeFollowsLog(es[..|es| - 1]);
      NextFollows(Life(es[..|es| - 1]), LogOf(es[..|es| - 1]), es[|es| - 1]);
    }
  }

  // ---- Clean restarts ----

  /** Every batch that was committed. */
  function Batches(es: seq<Event>): seq<seq<Chunk>> {
    if es == [] then []
    else Batches(es[..|es| - 1]) + if es[|es| - 1].Commit? then [es[|es| - 1].batch] else []
  }

  /** Every restart finds the table as it was left: what is committed is saved first. */
  ghost predicate CleanRestarts(es: seq<Event>) {
    es == [] ||
    var before := es[..|es| - 1];
    CleanRestarts(before) && (es[|es| - 1].Restart? ==> LogOf(before).saved == Some(LogOf(before).live))
  }

  lemma {:induction false} CleanKeepsAll(es: seq<Event>)
    requires CleanRestarts(es)
    ensures LogOf(es).live == Batches(es)
  {
    if es != [] {
      CleanKeepsAll(es[..|es| - 1]);
    }
  }

  // ---- Which restarts keep ids apart ----

  /** The ids of a table, each with the key it names. */
  ghost function Names(rows: Rows): set<(nat, string)> {
    set k | k in ByKey(rows) :: (ByKey(rows)[k].id, k)
  }

  /** Every name an id has had, in any state of the run. */
  ghost function Named(es: seq<Event>): set<(nat, string)> {
    Names(Life(es).rows) + if es == [] then {} else Named(es[..|es| - 1])
  }

  /** No id was ever given to a second key. */
  ghost predicate OneKeyPerId(named: set<(nat, string)>) {
    forall a, b :: a in named && b in named && a.0 == b.0 ==> a == b
  }

  /** The commits a restart here would lose handed out no id: the file's next id is the one in memory. */
  ghost predicate LosesNoId(p: Process) {
    Start(p.file).nextId == p.nextId
  }

  ghost predicate Harmless(es: seq<Event>) {
    es == [] || (Harmless(es[..|es| - 1]) && (es[|es| - 1].Restart? ==> LosesNoId(Life(es[..|es| - 1]))))
  }

  /** What a harmless run keeps: ids given so far are those below the next one, one key each, and the file knows no other. */
  ghost predicate Inv(p: Process, named: set<(nat, string)>) {
    && WellFormed(p.rows, p.nextId) && Names(p.rows) <= named && OneKeyPerId(named)
    && (forall a :: a in named ==> 0 < a.0 < p.nextId)
    && (forall id :: 0 < id < p.nextId ==> IsNamed(named, id))
    && FileOk(p, named)
  }

  ghost predicate IsNamed(named: set<(nat, string)>, id: nat) {
    exists k :: (id, k) in named
  }

  ghost predicate FileOk(p: Process, named: set<(nat, string)>) {
    var q := Start(p.file);
    WellFormed(q.rows, q.nextId) && q.nextId <= p.nextId && Names(q.rows) <= named
  }

  ghost predicate HasId(rows: Rows, id: nat) {
    exists i :: 0 <= i < |rows| && rows[i].id == id
  }

  /** One chunk drops no id from the next table, and the row of a fresh one is the last. */
  lemma ApplyKeepsIds(n: TableSync.Next, live: Rows, inc: Chunk, id: nat)
    ensures HasId(n.entries, id) || n.nextId <= id < Apply(n, live, inc).nextId ==> HasId(Apply(n, live, inc).entries, id)
  {
    var after := Apply(n, live, inc);
    if HasId(n.entries, id) {
      var i :| 0 <= i < |n.entries| && n.entries[i].id == id;
      assert after.entries[i].id == id;
    } else if n.nextId <= id < after.nextId {
      assert after.entries[|n.entries|].id == id;
    }
  }

  /** Each id a batch hands out is still the id of some row when the batch is through. */
  lemma {:induction false} FreshIdsStay(live: Rows, nextId: nat, batch: seq<Chunk>, id: nat)
    requires nextId <= id < ApplyAll(live, nextId, batch).nextId
    ensures HasId(ApplyAll(live, nextId, batch).entries, id)
  {
    if batch != [] {
      var before := ApplyAll(live, nextId, batch[..|batch| - 1]);
      if id < before.nextId {
        FreshIdsStay(live, nextId, batch[..|batch| - 1], id);
      }
      ApplyKeepsIds(before, live, batch[|batch| - 1], id);
    }
  }

  lemma FreshIdsAreNamed(live: Rows, nextId: nat, batch: seq<Chunk>, id: nat)
    requires WellFormed(live, nextId) && nextId <= id < Sync(live, nextId, batch).nextId
    ensures IsNamed(Names(Sync(live, nextId, batch).entries), id)
  {
    SyncMeaning(live, nextId, batch);
    FreshIdsStay(live, nextId, batch, id);
    var rows := Sync(live, nextId, batch).entries;
    var i :| 0 <= i < |rows| && rows[i].id == id;
    RowAt(rows, i);
    assert (id, KeyOf(rows, i)) in Names(rows);
  }

  lemma NamesAreDistinct(rows: Rows, nextId: nat)
    requires WellFormed(rows, nextId)
    ensures OneKeyPerId(Names(rows)) && forall a :: a in Names(rows) ==> 0 < a.0 < nextId
  {
    forall a, b | a in Names(rows) && b in Names(rows) && a.0 == b.0
      ensures a == b
    {
      assert IdsDiffer(ByKey(rows), a.1, b.1);
    }
  }

  /** A commit's names are old ones or of fresh ids. */
  lemma CommitNames(p: Process, batch: seq<Chunk>, a: (nat, string))
    requires WellFormed(p.rows, p.nextId) && a in Names(Sync(p.rows, p.nextId, batch).entries)
    ensures a in Names(p.rows) || p.nextId <= a.0
  {
    SyncMeaning(p.rows, p.nextId, batch);
    if a.1 in ByKey(p.rows) {
      assert (ByKey(p.rows)[a.1].id, a.1) in Names(p.rows);
    }
  }

  lemma CommitKeeps(p: Process, named: set<(nat, string)>, batch: seq<Chunk>)
    requires Inv(p, named)
    ensures Inv(Next(p, Commit(batch)), Names(Next(p, Commit(batch)).rows) + named)
  {
    var s := Sync(p.rows, p.nextId, batch);
    SyncMeaning(p.rows, p.nextId, batch);
    NamesAreDistinct(s.entries, s.nextId);
    var all := Names(s.entries) + named;
    forall a, b | a in all && b in all && a.0 == b.0
      ensures a == b
    {
      if a in Names(s.entries) {
        CommitNames(p, batch, a);
      }
      if b in Names(s.entries) {
        CommitNames(p, batch, b);
      }
    }
    forall id | 0 < id < s.nextId
      ensures IsNamed(all, id)
    {
      if id < p.nextId {
        assert IsNamed(named, id);
        var k :| (id, k) in named;
        assert (id, k) in all;
      } else {
        FreshIdsAreNamed(p.rows, p.nextId, batch, id);
        var k :| (id, k) in Names(s.entries);
        assert (id, k) in all;
      }
    }
  }

  lemma EventKeeps(p: Process, named: set<(nat, string)>, e: Event)
    requires Inv(p, named) && (e.Restart? ==> LosesNoId(p))
    ensures Inv(Next(p, e), Names(Next(p, e).rows) + named)
  {
    match e
    case Commit(batch) => CommitKeeps(p, named, batch);
    case Save(ok) =>
      if ok && StorableTable(p.rows, p.nextId) {
        StartFindsSaved(p.rows, p.nextId);
      }
      assert Names(p.rows) + named == named;
    case Restart =>
      assert Start(p.file).file == p.file;
      assert Names(Start(p.file).rows) + named == named;
  }

  lemma {:induction false} HarmlessKeepsInv(es: seq<Event>)
    requires Harmless(es)
    ensures Inv(Life(es), Named(es))
  {
    if es == [] {
      assert Names([]) == {};
    } else {
      HarmlessKeepsInv(es[..|es| - 1]);
      EventKeeps(Life(es[..|es| - 1]), Named(es[..|es| - 1]), es[|es| - 1]);
    }
  }

  /** While no restart loses a commit that handed out an id, no id is ever given to a second key. */
  lemma NoIdIsReusedAcrossRestarts(es: seq<Event>, id: nat, k: string, k': string)
    requires Harmless(es) && (id, k) in Named(es) && (id, k') in Named(es)
    ensures k == k'
  {
    HarmlessKeepsInv(es);
  }

  /** Restarts that find everything saved are among the harmless ones. */
  lemma {:induction false} CleanIsHarmless(es: seq<Event>)
    requires CleanRestarts(es)
    ensures Harmless(es)
  {
    if es != [] {
      var before := es[..|es| - 1];
      CleanIsHarmless(before);
      if es[|es| - 1].Restart? {
        LifeFollowsLog(before);
        StartFindsSaved(Life(before).rows, Life(before).nextId);
      }
    }
  }

  // ---- And no others ----

  lemma LifeNext(es: seq<Event>, e: Event)
    ensures Life(es + [e]) == Next(Life(es), e) && Named(es + [e]) == Names(Next(Life(es), e).rows) + Named(es)
    ensures Harmless(es + [e]) <==> Harmless(es) && (e.Restart? ==> LosesNoId(Life(es)))
  {
    assert (es + [e])[..|es|] == es;
  }

  /** A key that is not among finitely many. */
  lemma {:induction false} SomeOtherKey(keys: set<string>) returns (k: string)
    ensures k !in keys && forall x :: x in keys ==> |x| < |k|
  {
    if keys == {} {
      k := "";
    } else {
      var x :| x in keys;
      var k' := SomeOtherKey(keys - {x});
      k := k' + x + "-";
    }
  }

  lemma OneNewRow(n: TableSync.Next, live: Rows, c: Chunk)
    requires n.entries == [] && c.key !in ByKey(live)
    ensures Apply(n, live, c).entries == [Stored(n.nextId, c)]
  {}

  lemma OneName(row: Stored)
    ensures (row.id, row.chunk.key) in Names([row])
  {
    AppendRow([], row);
    assert [] + [row] == [row];
  }

  /** A chunk of a new key takes the next id. */
  lemma NewKeyTakesNext(rows: Rows, nextId: nat, c: Chunk)
    requires c.key !in ByKey(rows)
    ensures (nextId, c.key) in Names(Sync(rows, nextId, [c]).entries)
  {
    assert [c][..0] == [];
    OneNewRow(ApplyAll(rows, nextId, []), rows, c);
    OneName(Stored(nextId, c));
  }

  /** After a restart the first new key takes the file's next id. */
  lemma RestartThenNew(es: seq<Event>, c: Chunk)
    requires c.key !in ByKey(Start(Life(es).file).rows)
    ensures var all := es + [Restart] + [Commit([c])];
            (Start(Life(es).file).nextId, c.key) in Names(Life(all).rows) && Names(Life(all).rows) + Named(es) <= Named(all)
  {
    LifeNext(es, Restart);
    LifeNext(es + [Restart], Commit([c]));
    NewKeyTakesNext(Start(Life(es).file).rows, Start(Life(es).file).nextId, c);
  }

  /** A restart that forgets an id lets the next commit give it to another key. */
  lemma LostIdIsReused(es: seq<Event>) returns (c: Chunk)
    requires Harmless(es) && Start(Life(es).file).nextId < Life(es).nextId
    ensures !OneKeyPerId(Named(es + [Restart] + [Commit([c])]))
  {
    HarmlessKeepsInv(es);
    var q := Start(Life(es).file);
    assert IsNamed(Named(es), q.nextId);
    var k :| (q.nextId, k) in Named(es);
    var key := SomeOtherKey(ByKey(q.rows).Keys + {k});
    c := Chunk(key, "", None, 0, Span(0, 0, 0, 0), []);
    RestartThenNew(es, c);
    TwoKeys(Named(es + [Restart] + [Commit([c])]), q.nextId, k, key);
  }

  lemma TwoKeys(named: set<(nat, string)>, id: nat, k: string, k': string)
    requires (id, k) in named && (id, k') in named && k != k'
    ensures !OneKeyPerId(named)
  {}

  /** Whatever is committed after a restart here, no id gets a second key. */
  ghost predicate SafeRestart(es: seq<Event>) {
    forall batch: seq<Chunk> :: OneKeyPerId(Named(es + [Restart] + [Commit(batch)]))
  }

  /** One more restart is safe exactly when the file's next id is the one in memory; otherwise it is behind. */
  lemma SafeRestartIff(es: seq<Event>)
    requires Harmless(es)
    ensures SafeRestart(es) <==> LosesNoId(Life(es))
    ensures !SafeRestart(es) <==> Start(Life(es).file).nextId < Life(es).nextId
  {
    HarmlessKeepsInv(es);
    if LosesNoId(Life(es)) {
      forall batch: seq<Chunk>
        ensures OneKeyPerId(Named(es + [Restart] + [Commit(batch)]))
      {
        LifeNext(es, Restart);
        LifeNext(es + [Restart], Commit(batch));
        HarmlessKeepsInv(es + [Restart] + [Commit(batch)]);
      }
    } else {
      var c := LostIdIsReused(es);
    }
  }

  /** Every restart of the run was safe. */
  ghost predicate Safe(es: seq<Event>) {
    es == [] || (Safe(es[..|es| - 1]) && (es[|es| - 1].Restart? ==> SafeRestart(es[..|es| - 1])))
  }

  /** Over all runs: ids stay apart, whatever is committed after each restart, exactly when no restart lost one. */
  lemma {:induction false} SafeIffHarmless(es: seq<Event>)
    ensures Safe(es) <==> Harmless(es)
  {
    if es != [] {
      var before := es[..|es| - 1];
      SafeIffHarmless(before);
      if Harmless(before) {
        SafeRestartIff(before);
      }
    }
  }

  /** The shortest failing run: the id was `a`'s, and after a restart that lost the commit it is `b`'s. */
  lemma IdCanBeReusedAfterCrash(a: Chunk, b: Chunk)
    requires a.key != b.key
    ensures var (first, all) := ([Commit([a])], [Commit([a]), Restart, Commit([b])]);
            && a.key in ByKey(Life(first).rows) && ByKey(Life(first).rows)[a.key].id == 1
            && b.key in ByKey(Life(all).rows) && ByKey(Life(all).rows)[b.key].id == 1
            && !OneKeyPerId(Named(all))
  {
    var first, all := [Commit([a])], [Commit([a]), Restart, Commit([b])];
    assert first == [] + [Commit([a])] && all == first + [Restart] + [Commit([b])];
    LifeNext([], Commit([a]));
    NewKeyTakesNext([], 1, a);
    RestartThenNew(first, b);
    TwoKeys(Named(all), 1, a.key, b.key);
  }
}
