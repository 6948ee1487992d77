/**
 What each job of the lock protocol comes to when nothing stands in its way: it runs to its end, it holds the
 locks it needs where it needs them, and it leaves behind what it set out to do. So the safety theorems of
 `Locks` speak about jobs that do happen.
 */
module LockRuns {
  import opened Common
  import opened Locks

  /** The same thread, turn after turn. */
  function Turns(t: nat, job: Job, k: nat): (cs: seq<Choice>)
    ensures |cs| == k && forall i :: 0 <= i < k ==> cs[i] == Choice(t, job)
  {
    seq(k, _ => Choice(t, job))
  }

  /** The locks held after a step that found its lock free. */
  function HoldNext(held: set<Lock>, a: Action): set<Lock> {
    match a
    case Acquire(l) => held + {l}
    case TryLock(l, _) => held + {l}
    case Release(l) => held - {l}
    case _ => held
  }

  function Holding(held: set<Lock>, steps: seq<Action>): set<Lock>
    decreases |steps|
  {
    if steps == [] then held else Holding(HoldNext(held, steps[0]), steps[1..])
  }

  lemma {:induction false} HoldingJoin(held: set<Lock>, a: seq<Action>, b: seq<Action>)
    ensures Holding(held, a + b) == Holding(Holding(held, a), b)
    decreases |a|
  {
    if a == [] {
      NoTail(b);
    } else {
      assert (a + b)[1..] == a[1..] + b;
      HoldingJoin(HoldNext(held, a[0]), a[1..], b);
    }
  }

  lemma TwoHeld(held: set<Lock>, a: Action, b: Action)
    ensures Holding(held, [a, b]) == HoldNext(HoldNext(held, a), b)
  {
    HeadAndTail(a, [b]);
    NoTail([b]);
    HeadAndTail(b, []);
    assert [a, b] == [a] + [b];
    assert Holding(HoldNext(held, a), [b]) == HoldNext(HoldNext(held, a), b);
  }

  /** What one step makes of a repository. */
  function PlayNext(r: RepoState, a: Action, repo: nat): RepoState {
    if (a.Commit? || a.Settle?) && a.repo == repo then Settled(r, a) else r
  }

  lemma PlayOne(r: RepoState, a: Action, repo: nat)
    ensures Played(r, [a], repo) == PlayNext(r, a, repo)
  {
    PlayFirst(r, a, [], repo);
    NoTail([a]);
  }

  lemma {:induction false} PlayedJoin(r: RepoState, a: seq<Action>, b: seq<Action>, repo: nat)
    ensures Played(r, a + b, repo) == Played(Played(r, a, repo), b, repo)
    decreases |a|
  {
    if a == [] {
      NoTail(b);
    } else {
      assert (a + b)[1..] == a[1..] + b;
      PlayedJoin(PlayNext(r, a[0], repo), a[1..], b, repo);
    }
  }

  /** A thread with nobody in its way. */
  ghost predicate Free(s: State, t: nat, job: Job) {
    Inv(s) && s.owner == map[] && t < |s.jobs| && s.jobs[t] == [] && MayStart(s, t, job)
  }

  /** The state after `k` steps of a job that met nobody: a fact to carry, not to look into. */
  ghost predicate Reached(s: State, t: nat, steps: seq<Action>, k: nat, now: State)
    requires t < |s.jobs| && k <= |steps|
  {
    forall n {:trigger Look(n)} :: Look(n) ==> ReachedHere(s, t, steps, k, now)
  }

  ghost predicate ReachedHere(s: State, t: nat, steps: seq<Action>, k: nat, now: State)
    requires t < |s.jobs| && k <= |steps|
  {
    && Inv(now) && now.jobs == s.jobs[t := steps[k..]] && |now.repos| == |s.repos|
    && now.owner == (map l | l in Holding({}, steps[..k]) :: t)
    && (forall i :: 0 <= i < |s.repos| ==> now.repos[i] == Played(s.repos[i], steps[..k], i))
    && (now.bootstrapped <==> s.bootstrapped || Bootstrapped in steps[..k])
  }

  lemma ReachedNext(s: State, t: nat, steps: seq<Action>, k: nat, now: State, job: Job)
    requires t < |s.jobs| && k < |steps| && Reached(s, t, steps, k, now)
    ensures Step(now, t, job).Some? && Reached(s, t, steps, k + 1, Step(now, t, job).value)
  {
    assert Look(0);
    var a := steps[k];
    assert steps[k..][0] == a && steps[k..][1..] == steps[k + 1..];
    assert steps[..k + 1] == steps[..k] + [a];
    HoldingJoin({}, steps[..k], [a]);
    assert Holding(Holding({}, steps[..k]), [a]) == HoldNext(Holding({}, steps[..k]), a);
    forall i | 0 <= i < |s.repos|
      ensures Played(s.repos[i], steps[..k + 1], i) == PlayNext(now.repos[i], a, i)
    {
      PlayedJoin(s.repos[i], steps[..k], [a], i);
      PlayOne(now.repos[i], a, i);
    }
    assert ThreadOk(now, t);
    assert Held(now.owner, t) == Holding({}, steps[..k]);
    assert !Blocked(now, t);
    CanMove(now, t, job);
    StepKeepsInv(now, t, job);
  }

  lemma AloneStarts(s: State, t: nat, job: Job, steps: seq<Action>, cs: seq<Choice>)
    requires Free(s, t, job) && steps == Steps(job, |s.repos|) && cs == [Choice(t, job)]
    ensures Reached(s, t, steps, 0, Run(s, cs))
  {
    assert cs[..0] == [] && steps[..0] == [] && steps[0..] == steps;
    assert Run(s, cs[..0]) == s;
    StartKeepsInv(s, t, job);
  }

  lemma LastTurn(s: State, before: seq<Choice>, cs: seq<Choice>, t: nat, job: Job)
    requires cs == before + [Choice(t, job)] && Step(Run(s, before), t, job).Some?
    ensures Run(s, cs) == Step(Run(s, before), t, job).value
  {
    assert cs[..|cs| - 1] == before;
  }

  lemma {:induction false} ReachesAfter(s: State, t: nat, job: Job, steps: seq<Action>, k: nat)
    requires t < |s.jobs| && k <= |steps| && Reached(s, t, steps, 0, Run(s, Turns(t, job, 1)))
    ensures Reached(s, t, steps, k, Run(s, Turns(t, job, k + 1)))
  {
    if k > 0 {
      ReachesAfter(s, t, job, steps, k - 1);
      ReachedNext(s, t, steps, k - 1, Run(s, Turns(t, job, k)), job);
      LastTurn(s, Turns(t, job, k), Turns(t, job, k + 1), t, job);
    }
  }

  lemma AloneReaches(s: State, t: nat, job: Job, k: nat)
    requires Free(s, t, job) && k <= |Steps(job, |s.repos|)|
    ensures Reached(s, t, Steps(job, |s.repos|), k, Run(s, Turns(t, job, k + 1)))
  {
    AloneStarts(s, t, job, Steps(job, |s.repos|), Turns(t, job, 1));
    ReachesAfter(s, t, job, Steps(job, |s.repos|), k);
  }

  /** Alone, every job runs to its end and gives back every lock. */
  lemma JobEnds(s: State, t: nat, job: Job) returns (now: State)
    requires Free(s, t, job)
    ensures now == Run(s, Turns(t, job, |Steps(job, |s.repos|)| + 1))
    ensures now.jobs == s.jobs && now.owner == map[] && |now.repos| == |s.repos|
    ensures forall i :: 0 <= i < |s.repos| ==> now.repos[i] == Played(s.repos[i], Steps(job, |s.repos|), i)
    ensures now.bootstrapped <==> s.bootstrapped || Bootstrapped in Steps(job, |s.repos|)
  {
    var steps := Steps(job, |s.repos|);
    AloneReaches(s, t, job, |steps|);
    now := Run(s, Turns(t, job, |steps| + 1));
    assert Look(0);
    assert steps[..|steps|] == steps && steps[|steps|..] == [];
    assert ThreadOk(now, t);
    assert Held(now.owner, t) == {};
    assert forall l :: l in now.owner ==> l in Held(now.owner, t);
    assert s.jobs[t := []] == s.jobs;
  }

  // ---- What it leaves ----

  /** No step touches repository `i`. */
  predicate Untouched(steps: seq<Action>, i: nat) {
    forall k :: 0 <= k < |steps| ==> !((steps[k].Commit? || steps[k].Settle?) && steps[k].repo == i)
  }

  lemma {:induction false} UntouchedPlays(r: RepoState, steps: seq<Action>, i: nat)
    requires Untouched(steps, i)
    ensures Played(r, steps, i) == r
    decreases |steps|
  {
    if steps != [] {
      UntouchedPlays(r, steps[1..], i);
    }
  }

  lemma {:induction false} EmbedCallsQuiet(calls: nat)
    ensures forall k :: 0 <= k < |EmbedCalls(calls)| ==> EmbedCalls(calls)[k].Acquire? || EmbedCalls(calls)[k].Release?
  {
    if calls > 0 {
      EmbedCallsQuiet(calls - 1);
    }
  }

  lemma SyncLeavesOthers(r: RepoState, repo: nat, run: SyncRun, i: nat)
    requires i != repo
    ensures Played(r, SyncSteps(repo, run), i) == r
  {
    if run.Ran? {
      EmbedCallsQuiet(run.calls);
    }
    UntouchedPlays(r, SyncSteps(repo, run), i);
  }

  /** What a sync that ended like this makes of its repository. */
  ghost predicate Synced(before: RepoState, after: RepoState, run: SyncRun) {
    match run
    case Refused => after == before
    case Ran(_, inStep, ready, isOpen) =>
      && after.table == before.table + 1 && after.ready == ready && after.isOpen == isOpen
      && after.index == if inStep then before.table + 1 else before.index
  }

  /** An update moves its repository on, and nothing else. */
  lemma UpdateLands(s: State, repo: nat, run: SyncRun) returns (k: nat, now: State)
    requires Free(s, 0, Update(repo, run))
    ensures now == Run(s, Turns(0, Update(repo, run), k))
    ensures now.jobs == s.jobs && now.owner == map[] && now.bootstrapped && |now.repos| == |s.repos|
    ensures Synced(s.repos[repo], now.repos[repo], run)
    ensures forall i :: 0 <= i < |s.repos| && i != repo ==> now.repos[i] == s.repos[i]
  {
    var steps := Steps(Update(repo, run), |s.repos|);
    k := |steps| + 1;
    now := JobEnds(s, 0, Update(repo, run));
    forall i | 0 <= i < |s.repos|
      ensures now.repos[i] == Played(s.repos[i], SyncSteps(repo, run), i)
    {
      PlayedJoin(s.repos[i], [Acquire(Work)] + SyncSteps(repo, run), [Release(Work)], i);
      PlayedJoin(s.repos[i], [Acquire(Work)], SyncSteps(repo, run), i);
      PlayOne(s.repos[i], Acquire(Work), i);
      PlayOne(Played(s.repos[i], SyncSteps(repo, run), i), Release(Work), i);
    }
    SyncPlays(s.repos[repo], repo, run);
    forall i | 0 <= i < |s.repos| && i != repo
      ensures now.repos[i] == s.repos[i]
    {
      SyncLeavesOthers(s.repos[i], repo, run, i);
    }
  }

  /** Between its commit and its outcome it holds `work_mu` and the repository, and the table is ahead. */
  lemma UpdateIsSeen(s: State, repo: nat, run: SyncRun) returns (now: State)
    requires Free(s, 0, Update(repo, run)) && run.Ran?
    ensures now == Run(s, Turns(0, Update(repo, run), 4))
    ensures now.owner == map[Work := 0, RepoMu(repo) := 0]
    ensures |now.repos| == |s.repos| && now.repos[repo] == s.repos[repo].(table := s.repos[repo].table + 1)
  {
    var steps := Steps(Update(repo, run), |s.repos|);
    var front := [Acquire(Work), Acquire(RepoMu(repo)), Commit(repo)];
    assert steps[..3] == front;
    AloneReaches(s, 0, Update(repo, run), 3);
    assert Look(0);
    now := Run(s, Turns(0, Update(repo, run), 4));
    var locks := [Acquire(Work), Acquire(RepoMu(repo))];
    assert front == locks + [Commit(repo)] && locks == [Acquire(Work)] + [Acquire(RepoMu(repo))];
    HoldingJoin({}, locks, [Commit(repo)]);
    TwoHeld({}, Acquire(Work), Acquire(RepoMu(repo)));
    assert Holding({}, front) == {Work, RepoMu(repo)};
    PlayedJoin(s.repos[repo], locks, [Commit(repo)], repo);
    UntouchedPlays(s.repos[repo], locks, repo);
    PlayOne(s.repos[repo], Commit(repo), repo);
  }

  lemma BootHead(runs: seq<SyncRun>, from: nat)
    requires from < |runs|
    ensures BootSteps(runs, from) == SyncSteps(from, runs[from]) + BootSteps(runs, from + 1)
  {}

  /** The last step opens the gate. */
  lemma {:induction false} BootOpens(runs: seq<SyncRun>, from: nat) returns (front: seq<Action>)
    requires from <= |runs|
    ensures BootSteps(runs, from) == front + [Bootstrapped]
    decreases |runs| - from
  {
    front := [];
    NoTail([Bootstrapped]);
    if from < |runs| {
      var rest := BootOpens(runs, from + 1);
      front := SyncSteps(from, runs[from]) + rest;
      BootHead(runs, from);
      Regroup(SyncSteps(from, runs[from]), rest, [Bootstrapped]);
    }
  }

  /** `boot(k)` is the bootstrap from repository `k` on. */
  ghost predicate IsBoot(boot: nat -> seq<Action>, runs: seq<SyncRun>) {
    && boot(|runs|) == [Bootstrapped]
    && forall k: nat {:trigger boot(k)} :: k < |runs| ==> boot(k) == SyncSteps(k, runs[k]) + boot(k + 1)
  }

  lemma {:induction false} BootIsPast(r: RepoState, runs: seq<SyncRun>, boot: nat -> seq<Action>, from: nat, i: nat)
    requires IsBoot(boot, runs) && i < from <= |runs|
    ensures Played(r, boot(from), i) == r
    decreases |runs| - from
  {
    if from == |runs| {
      PlayOne(r, Bootstrapped, i);
    } else {
      PlayedJoin(r, SyncSteps(from, runs[from]), boot(from + 1), i);
      SyncLeavesOthers(r, from, runs[from], i);
      BootIsPast(r, runs, boot, from + 1, i);
    }
  }

  lemma {:induction false} BootPlays(r: RepoState, runs: seq<SyncRun>, boot: nat -> seq<Action>, from: nat, i: nat)
    requires IsBoot(boot, runs) && from <= i < |runs|
    ensures Played(r, boot(from), i) == Played(r, SyncSteps(i, runs[i]), i)
    decreases i - from
  {
    PlayedJoin(r, SyncSteps(from, runs[from]), boot(from + 1), i);
    if i == from {
      BootIsPast(Played(r, SyncSteps(i, runs[i]), i), runs, boot, from + 1, i);
    } else {
      SyncLeavesOthers(r, from, runs[from], i);
      BootPlays(r, runs, boot, from + 1, i);
    }
  }

  lemma BootSyncs(r: RepoState, runs: seq<SyncRun>, i: nat)
    requires i < |runs|
    ensures Synced(r, Played(r, BootSteps(runs, 0), i), runs[i])
  {
    BootPlays(r, runs, (k: nat) => if k <= |runs| then BootSteps(runs, k) else [], 0, i);
    SyncPlays(r, i, runs[i]);
  }

  lemma BootSyncsAll(before: seq<RepoState>, after: seq<RepoState>, runs: seq<SyncRun>)
    requires |before| == |after| == |runs| && forall i :: 0 <= i < |before| ==> after[i] == Played(before[i], BootSteps(runs, 0), i)
    ensures forall i :: 0 <= i < |runs| ==> Synced(before[i], after[i], runs[i])
  {
    forall i | 0 <= i < |runs|
      ensures Synced(before[i], after[i], runs[i])
    {
      BootSyncs(before[i], runs, i);
    }
  }

  /** A bootstrap syncs every repository, each as its own run went, and then opens the gate. */
  lemma BootLands(s: State, runs: seq<SyncRun>) returns (k: nat, now: State)
    requires Free(s, 0, Boot(runs))
    ensures now == Run(s, Turns(0, Boot(runs), k))
    ensures now.jobs == s.jobs && now.owner == map[] && now.bootstrapped && |now.repos| == |s.repos| == |runs|
    ensures forall i :: 0 <= i < |runs| ==> Synced(s.repos[i], now.repos[i], runs[i])
  {
    k := |Steps(Boot(runs), |s.repos|)| + 1;
    now := JobEnds(s, 0, Boot(runs));
    var front := BootOpens(runs, 0);
    assert Bootstrapped in front + [Bootstrapped];
    BootSyncsAll(s.repos, now.repos, runs);
  }

  /** A query ends, and leaves everything as it found it. */
  lemma QueryLands(s: State, t: nat, j: Job) returns (k: nat)
    requires Free(s, t, j) && IsQuery(j)
    ensures Run(s, Turns(t, j, k)) == s
  {
    var steps := Steps(j, |s.repos|);
    k := |steps| + 1;
    var now := JobEnds(s, t, j);
    QueryReadOnly(j, |s.repos|);
    forall i | 0 <= i < |s.repos|
      ensures now.repos[i] == s.repos[i]
    {
      UntouchedPlays(s.repos[i], steps, i);
    }
    assert now.repos == s.repos;
  }

  /** A query that finds `work_mu` taken goes away at once. */
  lemma QueryTurnedAway(s: State, t: nat, j: Job)
    requires 0 < t < |s.jobs| && s.jobs[t] == [] && IsQuery(j) && s.bootstrapped && Work in s.owner
    ensures Run(s, Turns(t, j, 2)) == s
  {
    var cs := Turns(t, j, 2);
    var steps := Steps(j, |s.repos|);
    var started := s.(jobs := s.jobs[t := steps]);
    assert cs[..1] == Turns(t, j, 1) && cs[..1][..0] == [];
    assert Run(s, cs[..1]) == started;
    assert steps[1 + (|steps| - 1)..] == [];
    assert started.jobs[t := []] == s.jobs;
  }

  // ---- Which locks it holds together ----

  /** At some point exactly these locks are held. */
  ghost predicate Meets(held: set<Lock>, steps: seq<Action>, want: set<Lock>)
    decreases |steps|
  {
    held == want || (steps != [] && Meets(HoldNext(held, steps[0]), steps[1..], want))
  }

  lemma {:induction false} MeetsAt(held: set<Lock>, steps: seq<Action>, want: set<Lock>) returns (k: nat)
    requires Meets(held, steps, want)
    ensures k <= |steps| && Holding(held, steps[..k]) == want
    decreases |steps|
  {
    k := 0;
    if held != want {
      var j := MeetsAt(HoldNext(held, steps[0]), steps[1..], want);
      k := j + 1;
      assert steps[..k][1..] == steps[1..][..j];
    }
  }

  lemma {:induction false} MeetsAfter(held: set<Lock>, a: seq<Action>, b: seq<Action>, want: set<Lock>)
    requires Meets(Holding(held, a), b, want)
    ensures Meets(held, a + b, want)
    decreases |a|
  {
    if a == [] {
      NoTail(b);
    } else {
      assert (a + b)[1..] == a[1..] + b;
      MeetsAfter(HoldNext(held, a[0]), a[1..], b, want);
    }
  }

  lemma {:induction false} MeetsBefore(held: set<Lock>, a: seq<Action>, b: seq<Action>, want: set<Lock>)
    requires Meets(held, a, want)
    ensures Meets(held, a + b, want)
    decreases |a|
  {
    if held != want {
      assert (a + b)[1..] == a[1..] + b;
      MeetsBefore(HoldNext(held, a[0]), a[1..], b, want);
    }
  }

  lemma {:induction false} VisitMeets(held: set<Lock>, from: nat, count: nat, i: nat)
    requires from <= i < from + count && held <= {Work}
    ensures Meets(held, VisitAll(from, count), held + {RepoMu(i)})
    decreases count
  {
    var first := [Acquire(RepoMu(from)), Release(RepoMu(from))];
    TwoHeld(held, Acquire(RepoMu(from)), Release(RepoMu(from)));
    assert held + {RepoMu(from)} - {RepoMu(from)} == held;
    if i == from {
      MeetsBefore(held, first, VisitAll(from + 1, count - 1), held + {RepoMu(i)});
    } else {
      VisitMeets(held, from + 1, count - 1, i);
      assert Holding(held, first) == held;
      MeetsAfter(held, first, VisitAll(from + 1, count - 1), held + {RepoMu(i)});
    }
  }

  lemma MeetsGate(body: seq<Action>, want: set<Lock>, steps: seq<Action>)
    requires Meets({Work}, body, want) && steps == [TryLock(Work, |body + [Release(Work)]|)] + (body + [Release(Work)])
    ensures Meets({}, steps, want)
  {
    MeetsBefore({Work}, body, [Release(Work)], want);
    HeadAndTail(TryLock(Work, |body + [Release(Work)]|), body + [Release(Work)]);
    assert HoldNext({}, steps[0]) == {Work};
  }

  /** What is met in a job's steps is held in its run. */
  lemma HeldInRun(s: State, t: nat, job: Job, want: set<Lock>) returns (k: nat)
    requires Free(s, t, job) && Meets({}, Steps(job, |s.repos|), want)
    ensures Run(s, Turns(t, job, k)).owner == map l | l in want :: t
  {
    var at := MeetsAt({}, Steps(job, |s.repos|), want);
    AloneReaches(s, t, job, at);
    assert Look(0);
    k := at + 1;
  }

  /** A search holds each repository it looks into, one at a time, and `work_mu` all the while. */
  lemma SearchHolds(s: State, t: nat, from: nat, count: nat, i: nat) returns (k: nat)
    requires Free(s, t, Search(from, count)) && from <= i < from + count
    ensures Run(s, Turns(t, Search(from, count), k)).owner == map[Work := t, RepoMu(i) := t]
  {
    var first := [Acquire(Embed), Release(Embed)];
    assert first[1..] == [Release(Embed)] && {Work} + {Embed} - {Embed} == {Work};
    assert Holding({Work}, first) == {Work};
    VisitMeets({Work}, from, count, i);
    var want := {Work, RepoMu(i)};
    assert {Work} + {RepoMu(i)} == want;
    MeetsAfter({Work}, first, VisitAll(from, count), want);
    MeetsGate(first + VisitAll(from, count), want, Steps(Search(from, count), |s.repos|));
    k := HeldInRun(s, t, Search(from, count), want);
  }

  /** Before that it embeds, holding no repository. */
  lemma SearchEmbeds(s: State, t: nat, from: nat, count: nat) returns (k: nat)
    requires Free(s, t, Search(from, count))
    ensures Run(s, Turns(t, Search(from, count), k)).owner == map[Work := t, Embed := t]
  {
    var first := [Acquire(Embed), Release(Embed)];
    var want := {Work, Embed};
    assert {Work} + {Embed} == want;
    assert Meets({Work}, first, want);
    MeetsBefore({Work}, first, VisitAll(from, count), want);
    MeetsGate(first + VisitAll(from, count), want, Steps(Search(from, count), |s.repos|));
    k := HeldInRun(s, t, Search(from, count), want);
  }

  /** So does a query that only looks. */
  lemma VisitHolds(s: State, t: nat, from: nat, count: nat, i: nat) returns (k: nat)
    requires Free(s, t, Visit(from, count)) && from <= i < from + count
    ensures Run(s, Turns(t, Visit(from, count), k)).owner == map[Work := t, RepoMu(i) := t]
  {
    VisitMeets({Work}, from, count, i);
    var want := {Work, RepoMu(i)};
    assert {Work} + {RepoMu(i)} == want;
    MeetsGate(VisitAll(from, count), want, Steps(Visit(from, count), |s.repos|));
    k := HeldInRun(s, t, Visit(from, count), want);
  }

  lemma {:induction false} LockAllHolds(from: nat, count: nat)
    ensures Holding(ViewHeld(from), LockAll(from, count)) == ViewHeld(from + count)
    decreases count
  {
    if count > 0 {
      HeadAndTail(Acquire(RepoMu(from)), LockAll(from + 1, count - 1));
      LockAllHolds(from + 1, count - 1);
    }
  }

  /** A graph view is built while every repository is held. */
  lemma ViewHoldsAll(s: State, t: nat, built: bool) returns (k: nat)
    requires Free(s, t, View(built))
    ensures var owner := Run(s, Turns(t, View(built), k)).owner;
            && (forall l :: l in owner <==> l == Work || l == GraphMu || (l.RepoMu? && l.repo < |s.repos|))
            && (forall l :: l in owner ==> owner[l] == t)
  {
    var n := |s.repos|;
    var rest := UnlockAll(n) + (ViewTail(built) + []);
    var body := QueryBody(View(built), n);
    ViewSteps(built, n, []);
    NoTail(body);
    assert HoldNext({Work}, Acquire(GraphMu)) == ViewHeld(0);
    LockAllHolds(0, n);
    assert Meets(ViewHeld(n), rest, ViewHeld(n));
    MeetsAfter(ViewHeld(0), LockAll(0, n), rest, ViewHeld(n));
    HeadAndTail(Acquire(GraphMu), LockAll(0, n) + rest);
    assert Meets({Work}, body, ViewHeld(n));
    MeetsGate(body, ViewHeld(n), Steps(View(built), n));
    k := HeldInRun(s, t, View(built), ViewHeld(n));
    forall l
      ensures l in ViewHeld(n) <==> l == Work || l == GraphMu || (l.RepoMu? && l.repo < n)
    {
      ViewHolds(n, l);
    }
  }

  // ---- From a cold start ----

  /**
   An engine that holds nothing and has nothing ready boots, whatever its syncs come to, and can then start any
   update and, on any other thread, any query.
   */
  lemma EngineStarts(s: State, runs: seq<SyncRun>, repo: nat, run: SyncRun, t: nat, j: Job) returns (k: nat, now: State)
    requires Initial(s) && repo < |s.repos| == |runs| && 0 < t < |s.jobs| && (j.Search? || j.Visit? || j.View?)
    requires run.Ran? && run.ready && run.isOpen ==> run.inStep
    requires forall i :: 0 <= i < |runs| ==> runs[i].Ran? && runs[i].ready && runs[i].isOpen ==> runs[i].inStep
    ensures now == Run(s, Turns(0, Boot(runs), k)) && now.bootstrapped && now.owner == map[] && |now.repos| == |runs|
    ensures forall i :: 0 <= i < |runs| ==> Synced(s.repos[i], now.repos[i], runs[i])
    ensures Free(now, 0, Update(repo, run)) && Free(now, t, j)
  {
    RunKeepsInv(s, []);
    k, now := BootLands(s, runs);
    RunKeepsInv(s, Turns(0, Boot(runs), k));
  }
}
