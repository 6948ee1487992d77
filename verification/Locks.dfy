/**
 The lock and readiness protocol, as a state machine over the steps of the watch thread (thread 0)
 and any number of query threads. A thread runs one job at a time; a job is the list of lock
 operations, table and index commits the code performs, in order.
 */
module Locks {
  import opened Common

  /** `work_mu`, `graph_mu`, one lock per repository, a graph view's private lock, `embed_mu`. */
  datatype Lock = Work | GraphMu | RepoMu(repo: nat) | ViewMu | Embed

  /** The order in which locks may be nested. */
  predicate Below(a: Lock, b: Lock) {
    match (a, b)
    case (RepoMu(i), RepoMu(j)) => i < j
    case _ => Rank(a) < Rank(b)
  }

  function Rank(l: Lock): nat {
    match l
    case Work => 0
    case GraphMu => 1
    case RepoMu(_) => 2
    case ViewMu => 3
    case Embed => 4
  }

  /**
   One step of a job. `TryLock(l, n)` drops the next `n` steps when the lock is taken. `Commit` is a chunk
   table swap, `Settle` what the vector sync leaves: in step or not, ready or not, with or without an open handle.
   */
  datatype Action =
    | Acquire(l: Lock)
    | Release(l: Lock)
    | TryLock(l: Lock, n: nat)
    | Commit(repo: nat)
    | Settle(repo: nat, inStep: bool, ready: bool, isOpen: bool)
    | Bootstrapped

  /** A repository's table and index by version: in step when the versions agree. */
  datatype RepoState = RepoState(table: nat, index: nat, ready: bool, isOpen: bool)

  /** What a search must never meet: a repository that offers itself while its index lags its table. */
  predicate Torn(r: RepoState) {
    r.ready && r.isOpen && r.table != r.index
  }

  datatype State = State(owner: map<Lock, nat>, jobs: seq<seq<Action>>, repos: seq<RepoState>, bootstrapped: bool)

  // ---- Jobs ----

  /** Bodies embedded one bounded call at a time. */
  function EmbedCalls(calls: nat): seq<Action> {
    if calls == 0 then [] else [Acquire(Embed), Release(Embed)] + EmbedCalls(calls - 1)
  }

  /** How one repository's sync went: no commit, or a commit, some embedder calls, and an outcome. */
  datatype SyncRun = Refused | Ran(calls: nat, inStep: bool, ready: bool, isOpen: bool)

  /** A repository that offers itself and can be searched is in step. */
  predicate HonestEnd(inStep: bool, ready: bool, isOpen: bool) {
    ready && isOpen ==> inStep
  }

  /**
   What `Incremental.Honest` proves of every sync: it ends honestly, where in step means that the index has every
   row of the table, and also where it means exactly the rows, unless the last rebuild was tainted.
   */
  predicate HonestRun(run: SyncRun) {
    run.Ran? ==> HonestEnd(run.inStep, run.ready, run.isOpen)
  }

  /** `apply_path_changes` or a bootstrap, under the repository's lock. */
  function SyncSteps(repo: nat, run: SyncRun): seq<Action> {
    [Acquire(RepoMu(repo))] + SyncBody(repo, run) + [Release(RepoMu(repo))]
  }

  function SyncBody(repo: nat, run: SyncRun): seq<Action> {
    match run
    case Refused => []
    case Ran(calls, inStep, ready, isOpen) =>
      [Commit(repo)] + EmbedCalls(calls) + [Settle(repo, inStep, ready, isOpen)]
  }

  function BootSteps(runs: seq<SyncRun>, from: nat): seq<Action>
    requires from <= |runs|
    decreases |runs| - from
  {
    if from == |runs| then [Bootstrapped] else SyncSteps(from, runs[from]) + BootSteps(runs, from + 1)
  }

  function LockAll(from: nat, count: nat): seq<Action>
    decreases count
  {
    if count == 0 then [] else [Acquire(RepoMu(from))] + LockAll(from + 1, count - 1)
  }

  function UnlockAll(n: nat): seq<Action> {
    if n == 0 then [] else [Release(RepoMu(n - 1))] + UnlockAll(n - 1)
  }

  /** One repository after another, each under its own lock. */
  function VisitAll(from: nat, count: nat): seq<Action>
    decreases count
  {
    if count == 0 then [] else [Acquire(RepoMu(from)), Release(RepoMu(from))] + VisitAll(from + 1, count - 1)
  }

  /**
   What the threads do. The watch thread bootstraps every repository, then updates single repositories,
   trims an idle embedder and shrinks idle tables. A query passes the gate on `work_mu` and then searches some
   repositories in turn (embedding first, under no repository lock), visits some without embedding, or builds
   and reads a graph view. It may look into one repository, all, or stop early.
   */
  datatype Job =
    | Boot(runs: seq<SyncRun>)
    | Update(repo: nat, run: SyncRun)
    | Trim
    | Shrink
    | Search(from: nat, count: nat)
    | Visit(from: nat, count: nat)
    | View(built: bool)

  predicate IsQuery(j: Job) {
    j.Search? || j.Visit? || j.View?
  }

  function QueryBody(j: Job, n: nat): seq<Action>
    requires IsQuery(j)
  {
    match j
    case Search(from, count) => [Acquire(Embed), Release(Embed)] + VisitAll(from, count)
    case Visit(from, count) => VisitAll(from, count)
    case View(built) =>
      [Acquire(GraphMu)] + LockAll(0, n) + UnlockAll(n) + ViewTail(built)
  }

  function Steps(j: Job, n: nat): seq<Action> {
    match j
    case Boot(runs) => BootSteps(runs, 0)
    case Update(i, run) => [Acquire(Work)] + SyncSteps(i, run) + [Release(Work)]
    case Trim => [TryLock(Embed, 1), Release(Embed)]
    case Shrink => VisitAll(0, n)
    case _ =>
      var body := QueryBody(j, n) + [Release(Work)];
      [TryLock(Work, |body|)] + body
  }

  /** Which thread may start which job when. A query that finds the engine not bootstrapped is refused at once. */
  predicate MayStart(s: State, t: nat, j: Job) {
    if t == 0 then
      match j
      case Boot(runs) => !s.bootstrapped && |runs| == |s.repos| && forall i :: 0 <= i < |runs| ==> HonestRun(runs[i])
      case Update(i, run) => s.bootstrapped && i < |s.repos| && HonestRun(run)
      case Trim => s.bootstrapped
      case Shrink => s.bootstrapped
      case _ => false
    else
      IsQuery(j) && s.bootstrapped
  }

  // ---- Steps ----

  function Settled(r: RepoState, a: Action): RepoState
    requires a.Commit? || a.Settle?
  {
    if a.Commit? then r.(table := r.table + 1)
    else RepoState(r.table, if a.inStep then r.table else r.index, a.ready, a.isOpen)
  }

  /** A thread is blocked when its next step waits for a lock another thread, or it itself, holds. */
  predicate Blocked(s: State, t: nat) {
    && t < |s.jobs| && s.jobs[t] != []
    && s.jobs[t][0].Acquire? && s.jobs[t][0].l in s.owner
  }

  /** The state after thread `t`'s next step; `job` is what it starts when it is idle. None: it cannot step. */
  function Step(s: State, t: nat, job: Job): Option<State> {
    if t >= |s.jobs| then None
    else if s.jobs[t] == [] then
      if MayStart(s, t, job) then Some(s.(jobs := s.jobs[t := Steps(job, |s.repos|)])) else None
    else
      var (a, s') := (s.jobs[t][0], s.(jobs := s.jobs[t := s.jobs[t][1..]]));
      match a
      case Acquire(l) => if l in s.owner then None else Some(s'.(owner := s.owner[l := t]))
      case Release(l) => Some(s'.(owner := s.owner - {l}))
      case TryLock(l, n) =>
        if l !in s.owner then Some(s'.(owner := s.owner[l := t]))
        else if 1 + n <= |s.jobs[t]| then Some(s.(jobs := s.jobs[t := s.jobs[t][1 + n..]]))
        else None
      case Commit(i) => if i < |s.repos| then Some(s'.(repos := s.repos[i := Settled(s.repos[i], a)])) else None
      case Settle(i, _, _, _) => if i < |s.repos| then Some(s'.(repos := s.repos[i := Settled(s.repos[i], a)])) else None
      case Bootstrapped => Some(s'.(bootstrapped := true))
  }

  /** What a list of steps makes of one repository's versions and flags. */
  function Played(r: RepoState, steps: seq<Action>, repo: nat): RepoState
    decreases |steps|
  {
    if steps == [] then r
    else
      var a := steps[0];
      Played(if (a.Commit? || a.Settle?) && a.repo == repo then Settled(r, a) else r, steps[1..], repo)
  }

  /** Who moves next, and what it starts if it is idle. */
  datatype Choice = Choice(thread: nat, job: Job)

  /** The state after a run: a choice that cannot step is skipped. */
  function Run(s: State, cs: seq<Choice>): State {
    if cs == [] then s
    else
      var before := Run(s, cs[..|cs| - 1]);
      match Step(before, cs[|cs| - 1].thread, cs[|cs| - 1].job)
      case Some(after) => after
      case None => before
  }

  /** Nothing held, nothing running, nothing ready yet. */
  predicate Initial(s: State) {
    && s.owner == map[] && !s.bootstrapped
    && (forall t :: 0 <= t < |s.jobs| ==> s.jobs[t] == [])
    && (forall i :: 0 <= i < |s.repos| ==> !s.repos[i].ready)
  }

  // ---- What a job keeps to ----

  /** Locks are taken in rank order, given back, and all given back at the end. */
  ghost predicate Ordered(held: set<Lock>, rest: seq<Action>)
    decreases |rest|
  {
    if rest == [] then held == {}
    else match rest[0]
      case Acquire(l) => AllBelow(held, l) && Ordered(held + {l}, rest[1..])
      case Release(l) => l in held && Ordered(held - {l}, rest[1..])
      case TryLock(l, n) => l !in held && 1 + n <= |rest| && Ordered(held + {l}, rest[1..]) && Ordered(held, rest[1 + n..])
      case _ => Ordered(held, rest[1..])
  }

  /** A commit that has happened is settled before the job gives up the repository, `work_mu`, or bootstrapping. */
  predicate Pending(rest: seq<Action>, i: nat) {
    rest != [] &&
    match rest[0]
    case Settle(j, _, _, _) => i == j || Pending(rest[1..], i)
    case Acquire(_) => Pending(rest[1..], i)
    case Release(l) => l == Embed && Pending(rest[1..], i)
    case _ => false
  }

  /** The watch thread's jobs: commits only under the repository's lock, and under `work_mu` once bootstrapped. */
  ghost predicate Guarded(held: set<Lock>, boot: bool, n: nat, rest: seq<Action>)
    decreases |rest|
  {
    rest == [] ||
    match rest[0]
    case Acquire(l) => Guarded(held + {l}, boot, n, rest[1..])
    case Release(l) => Guarded(held - {l}, boot, n, rest[1..])
    case TryLock(l, k) => 1 + k <= |rest| && Guarded(held + {l}, boot, n, rest[1..]) && Guarded(held, boot, n, rest[1 + k..])
    case Commit(i) => i < n && RepoMu(i) in held && (boot ==> Work in held) && Pending(rest[1..], i) && Guarded(held, boot, n, rest[1..])
    case Settle(i, inStep, ready, isOpen) =>
      i < n && RepoMu(i) in held && (boot ==> Work in held) && HonestEnd(inStep, ready, isOpen) && Guarded(held, boot, n, rest[1..])
    case Bootstrapped => Guarded(held, true, n, rest[1..])
  }

  /** A query's job changes nothing. */
  predicate ReadOnly(rest: seq<Action>) {
    forall k :: 0 <= k < |rest| ==> rest[k].Acquire? || rest[k].Release? || rest[k].TryLock?
  }

  function Held(owner: map<Lock, nat>, t: nat): set<Lock> {
    set l | l in owner && owner[l] == t
  }

  ghost predicate ThreadOk(s: State, t: nat)
    requires t < |s.jobs|
  {
    && Ordered(Held(s.owner, t), s.jobs[t])
    && (t == 0 ==> Guarded(Held(s.owner, 0), s.bootstrapped, |s.repos|, s.jobs[0]))
    && (t > 0 ==> ReadOnly(s.jobs[t]) && (s.jobs[t] != [] ==> s.bootstrapped))
  }

  ghost predicate RepoOk(s: State, i: nat)
    requires i < |s.repos| && |s.jobs| > 0
  {
    Torn(s.repos[i]) ==>
      && Pending(s.jobs[0], i)
      && RepoMu(i) in s.owner && s.owner[RepoMu(i)] == 0
      && (s.bootstrapped ==> Work in s.owner && s.owner[Work] == 0)
  }

  /** The invariant of every reachable state. */
  ghost predicate Inv(s: State) {
    && |s.jobs| > 0
    && (forall l :: l in s.owner ==> s.owner[l] < |s.jobs|)
    && (forall t {:trigger ThreadOk(s, t)} :: 0 <= t < |s.jobs| ==> ThreadOk(s, t))
    && (forall i {:trigger RepoOk(s, i)} :: 0 <= i < |s.repos| ==> RepoOk(s, i))
  }

  // ---- Every job keeps to it ----

  /** Every held lock may have `l` taken inside it. */
  ghost predicate AllBelow(held: set<Lock>, l: Lock) {
    forall h :: h in held ==> Below(h, l)
  }

  /** One step in front of an ordered list. */
  lemma Prepend(held: set<Lock>, a: Action, rest: seq<Action>)
    requires !a.TryLock?
    requires a.Acquire? ==> AllBelow(held, a.l) && Ordered(held + {a.l}, rest)
    requires a.Release? ==> a.l in held && Ordered(held - {a.l}, rest)
    requires !a.Acquire? && !a.Release? ==> Ordered(held, rest)
    ensures Ordered(held, [a] + rest)
  {
    HeadAndTail(a, rest);
  }

  lemma PairThen(a: Action, b: Action, rest: seq<Action>)
    ensures [a, b] + rest == [a] + ([b] + rest)
  {
    assert [a, b] == [a] + [b];
    Regroup([a], [b], rest);
  }

  /** A lock above all held ones, taken and given straight back. */
  lemma TakeAndGive(held: set<Lock>, l: Lock, rest: seq<Action>)
    requires Ordered(held, rest) && AllBelow(held, l)
    ensures Ordered(held, [Acquire(l), Release(l)] + rest)
  {
    assert held + {l} - {l} == held by {
      assert !Below(l, l);
    }
    Prepend(held + {l}, Release(l), rest);
    Prepend(held, Acquire(l), [Release(l)] + rest);
    PairThen(Acquire(l), Release(l), rest);
  }

  lemma {:induction false} EmbedCallsOrdered(held: set<Lock>, calls: nat, rest: seq<Action>)
    requires Ordered(held, rest) && AllBelow(held, Embed)
    ensures Ordered(held, EmbedCalls(calls) + rest)
  {
    if calls == 0 {
      NoTail(rest);
    } else {
      EmbedCallsOrdered(held, calls - 1, rest);
      TakeAndGive(held, Embed, EmbedCalls(calls - 1) + rest);
      Regroup([Acquire(Embed), Release(Embed)], EmbedCalls(calls - 1), rest);
    }
  }

  /** What a sync that commits does. */
  function Settling(repo: nat, run: SyncRun): Action
    requires run.Ran?
  {
    Settle(repo, run.inStep, run.ready, run.isOpen)
  }

  lemma SyncBodyThen(repo: nat, run: SyncRun, rest: seq<Action>)
    ensures SyncBody(repo, run) + rest
         == if run.Refused? then rest else [Commit(repo)] + (EmbedCalls(run.calls) + ([Settling(repo, run)] + rest))
  {
    if run.Refused? {
      NoTail(rest);
    } else {
      RegroupFour([Commit(repo)], EmbedCalls(run.calls), [Settling(repo, run)], rest);
    }
  }

  lemma SyncBodyOrdered(held: set<Lock>, repo: nat, run: SyncRun, rest: seq<Action>)
    requires Ordered(held, rest) && AllBelow(held, Embed)
    ensures Ordered(held, SyncBody(repo, run) + rest)
  {
    SyncBodyThen(repo, run, rest);
    if run.Ran? {
      Prepend(held, Settling(repo, run), rest);
      EmbedCallsOrdered(held, run.calls, [Settling(repo, run)] + rest);
      Prepend(held, Commit(repo), EmbedCalls(run.calls) + ([Settling(repo, run)] + rest));
    }
  }

  lemma SyncStepsThen(repo: nat, run: SyncRun, rest: seq<Action>)
    ensures SyncSteps(repo, run) + rest == [Acquire(RepoMu(repo))] + (SyncBody(repo, run) + ([Release(RepoMu(repo))] + rest))
  {
    RegroupFour([Acquire(RepoMu(repo))], SyncBody(repo, run), [Release(RepoMu(repo))], rest);
  }

  lemma PlayFirst(r: RepoState, a: Action, rest: seq<Action>, repo: nat)
    ensures Played(r, [a] + rest, repo) == Played(if (a.Commit? || a.Settle?) && a.repo == repo then Settled(r, a) else r, rest, repo)
  {
    HeadAndTail(a, rest);
  }

  lemma {:induction false} EmbedCallsPlay(r: RepoState, calls: nat, rest: seq<Action>, repo: nat)
    ensures Played(r, EmbedCalls(calls) + rest, repo) == Played(r, rest, repo)
  {
    if calls == 0 {
      NoTail(rest);
    } else {
      var tail := EmbedCalls(calls - 1) + rest;
      EmbedCallsPlay(r, calls - 1, rest, repo);
      PlayFirst(r, Release(Embed), tail, repo);
      PlayFirst(r, Acquire(Embed), [Release(Embed)] + tail, repo);
      PairThen(Acquire(Embed), Release(Embed), tail);
      Regroup([Acquire(Embed), Release(Embed)], EmbedCalls(calls - 1), rest);
    }
  }

  /** A sync's steps do what its commit and its outcome say. */
  lemma SyncPlays(r: RepoState, repo: nat, run: SyncRun)
    ensures Played(r, SyncSteps(repo, run), repo) ==
            if run.Refused? then r
            else RepoState(r.table + 1, if run.inStep then r.table + 1 else r.index, run.ready, run.isOpen)
  {
    var last := [Release(RepoMu(repo))];
    SyncStepsThen(repo, run, []);
    NoTail(SyncSteps(repo, run));
    NoTail(last);
    SyncBodyThen(repo, run, last);
    PlayFirst(r, Acquire(RepoMu(repo)), SyncBody(repo, run) + last, repo);
    if run.Refused? {
      PlayFirst(r, Release(RepoMu(repo)), [], repo);
    } else {
      var settle := Settling(repo, run);
      var r1 := Settled(r, Commit(repo));
      PlayFirst(r, Commit(repo), EmbedCalls(run.calls) + ([settle] + last), repo);
      EmbedCallsPlay(r1, run.calls, [settle] + last, repo);
      PlayFirst(r1, settle, last, repo);
      PlayFirst(Settled(r1, settle), Release(RepoMu(repo)), [], repo);
    }
  }

  lemma SyncOrdered(held: set<Lock>, repo: nat, run: SyncRun, rest: seq<Action>)
    requires held <= {Work} && Ordered(held, rest)
    ensures Ordered(held, SyncSteps(repo, run) + rest)
  {
    var l := RepoMu(repo);
    assert held + {l} - {l} == held;
    Prepend(held + {l}, Release(l), rest);
    SyncBodyOrdered(held + {l}, repo, run, [Release(l)] + rest);
    Prepend(held, Acquire(l), SyncBody(repo, run) + ([Release(l)] + rest));
    SyncStepsThen(repo, run, rest);
  }

  lemma {:induction false} BootOrdered(runs: seq<SyncRun>, from: nat)
    requires from <= |runs|
    ensures Ordered({}, BootSteps(runs, from))
    decreases |runs| - from
  {
    if from < |runs| {
      BootOrdered(runs, from + 1);
      SyncOrdered({}, from, runs[from], BootSteps(runs, from + 1));
    }
  }

  lemma {:induction false} VisitOrdered(held: set<Lock>, from: nat, count: nat, rest: seq<Action>)
    requires held <= {Work} && Ordered(held, rest)
    ensures Ordered(held, VisitAll(from, count) + rest)
    decreases count
  {
    if count == 0 {
      NoTail(rest);
    } else {
      VisitOrdered(held, from + 1, count - 1, rest);
      TakeAndGive(held, RepoMu(from), VisitAll(from + 1, count - 1) + rest);
      Regroup([Acquire(RepoMu(from)), Release(RepoMu(from))], VisitAll(from + 1, count - 1), rest);
    }
  }

  /** The locks a view holds once it has the first `n` repositories. */
  function ViewHeld(n: nat): set<Lock> {
    if n == 0 then {Work, GraphMu} else ViewHeld(n - 1) + {RepoMu(n - 1)}
  }

  lemma {:induction false} ViewHolds(n: nat, l: Lock)
    ensures l in ViewHeld(n) <==> l == Work || l == GraphMu || (l.RepoMu? && l.repo < n)
  {
    if n > 0 {
      ViewHolds(n - 1, l);
    }
  }

  lemma {:induction false} UnlockOrdered(n: nat, rest: seq<Action>)
    requires Ordered(ViewHeld(0), rest)
    ensures Ordered(ViewHeld(n), UnlockAll(n) + rest)
  {
    if n == 0 {
      NoTail(rest);
    } else {
      UnlockOrdered(n - 1, rest);
      ViewHolds(n - 1, RepoMu(n - 1));
      assert ViewHeld(n) - {RepoMu(n - 1)} == ViewHeld(n - 1);
      Prepend(ViewHeld(n), Release(RepoMu(n - 1)), UnlockAll(n - 1) + rest);
      Regroup([Release(RepoMu(n - 1))], UnlockAll(n - 1), rest);
    }
  }

  lemma {:induction false} LockOrdered(from: nat, count: nat, rest: seq<Action>)
    requires Ordered(ViewHeld(from + count), rest)
    ensures Ordered(ViewHeld(from), LockAll(from, count) + rest)
    decreases count
  {
    if count == 0 {
      NoTail(rest);
    } else {
      LockOrdered(from + 1, count - 1, rest);
      forall h | h in ViewHeld(from)
        ensures Below(h, RepoMu(from))
      {
        ViewHolds(from, h);
      }
      Prepend(ViewHeld(from), Acquire(RepoMu(from)), LockAll(from + 1, count - 1) + rest);
      Regroup([Acquire(RepoMu(from))], LockAll(from + 1, count - 1), rest);
    }
  }

  /** The end of a view: its private lock, then `graph_mu` back. */
  function ViewTail(built: bool): seq<Action> {
    (if built then [Acquire(ViewMu), Release(ViewMu)] else []) + [Release(GraphMu)]
  }

  lemma ViewTailOrdered(built: bool, rest: seq<Action>)
    requires Ordered({Work}, rest)
    ensures Ordered({Work, GraphMu}, ViewTail(built) + rest)
  {
    assert {Work, GraphMu} - {GraphMu} == {Work};
    Prepend({Work, GraphMu}, Release(GraphMu), rest);
    if built {
      TakeAndGive({Work, GraphMu}, ViewMu, [Release(GraphMu)] + rest);
      Regroup([Acquire(ViewMu), Release(ViewMu)], [Release(GraphMu)], rest);
    } else {
      NoTail([Release(GraphMu)]);
    }
  }

  lemma ViewSteps(built: bool, n: nat, rest: seq<Action>)
    ensures QueryBody(View(built), n) + rest == [Acquire(GraphMu)] + (LockAll(0, n) + (UnlockAll(n) + (ViewTail(built) + rest)))
  {
    var l, u, t := LockAll(0, n), UnlockAll(n), ViewTail(built);
    Regroup([Acquire(GraphMu)] + l + u, t, rest);
    RegroupFour([Acquire(GraphMu)], l, u, t + rest);
  }

  lemma ViewOrdered(built: bool, n: nat, rest: seq<Action>)
    requires Ordered({Work}, rest)
    ensures Ordered({Work}, QueryBody(View(built), n) + rest)
  {
    var tail := ViewTail(built) + rest;
    var body := LockAll(0, n) + (UnlockAll(n) + tail);
    assert Ordered(ViewHeld(0), body) by {
      ViewTailOrdered(built, rest);
      UnlockOrdered(n, tail);
      LockOrdered(0, n, UnlockAll(n) + tail);
    }
    assert {Work} + {GraphMu} == ViewHeld(0);
    Prepend({Work}, Acquire(GraphMu), body);
    ViewSteps(built, n, rest);
  }

  lemma QueryOrdered(j: Job, n: nat, rest: seq<Action>)
    requires IsQuery(j) && Ordered({Work}, rest)
    ensures Ordered({Work}, QueryBody(j, n) + rest)
  {
    match j
    case Search(from, count) =>
      VisitOrdered({Work}, from, count, rest);
      TakeAndGive({Work}, Embed, VisitAll(from, count) + rest);
      Regroup([Acquire(Embed), Release(Embed)], VisitAll(from, count), rest);
    case Visit(from, count) =>
      VisitOrdered({Work}, from, count, rest);
    case View(built) =>
      ViewOrdered(built, n, rest);
  }

  /** Every job takes its locks in rank order and ends holding none. */
  lemma JobOrdered(j: Job, n: nat)
    ensures Ordered({}, Steps(j, n))
  {
    var last := [Release(Work)];
    assert {Work} - {Work} == {} && {} + {Work} == {Work};
    assert Ordered({Work}, last) by {
      Prepend({Work}, Release(Work), []);
      NoTail(last);
    }
    match j
    case Boot(runs) => BootOrdered(runs, 0);
    case Update(i, run) =>
      SyncOrdered({Work}, i, run, last);
      Prepend({}, Acquire(Work), SyncSteps(i, run) + last);
      Regroup([Acquire(Work)], SyncSteps(i, run), last);
    case Trim => TrimOrdered();
    case Shrink =>
      VisitOrdered({}, 0, n, []);
      NoTail(VisitAll(0, n));
    case _ =>
      QueryOrdered(j, n, last);
      GateOrdered(QueryBody(j, n) + last);
  }

  lemma TrimOrdered()
    ensures Ordered({}, [TryLock(Embed, 1), Release(Embed)])
  {
    var all := [TryLock(Embed, 1), Release(Embed)];
    assert {} + {Embed} - {Embed} == {};
    Prepend({} + {Embed}, Release(Embed), []);
    assert all[1..] == [Release(Embed)] + [] && all[2..] == [];
  }

  /** Behind the gate a query holds `work_mu`; turned away it does nothing. */
  lemma GateOrdered(body: seq<Action>)
    requires Ordered({Work}, body)
    ensures Ordered({}, [TryLock(Work, |body|)] + body)
  {
    HeadAndTail(TryLock(Work, |body|), body);
    assert ([TryLock(Work, |body|)] + body)[1 + |body|..] == [] && {} + {Work} == {Work};
  }

  /** One step in front of a guarded list. */
  lemma PrependGuarded(held: set<Lock>, boot: bool, n: nat, a: Action, rest: seq<Action>)
    requires !a.TryLock? && !a.Bootstrapped?
    requires Guarded(if a.Acquire? then held + {a.l} else if a.Release? then held - {a.l} else held, boot, n, rest)
    requires a.Commit? || a.Settle? ==> a.repo < n && RepoMu(a.repo) in held && (boot ==> Work in held)
    requires a.Commit? ==> Pending(rest, a.repo)
    requires a.Settle? ==> HonestEnd(a.inStep, a.ready, a.isOpen)
    ensures Guarded(held, boot, n, [a] + rest)
  {
    HeadAndTail(a, rest);
  }

  lemma TakeAndGiveGuarded(held: set<Lock>, boot: bool, n: nat, l: Lock, rest: seq<Action>)
    requires l !in held && Guarded(held, boot, n, rest)
    ensures Guarded(held, boot, n, [Acquire(l), Release(l)] + rest)
  {
    assert held + {l} - {l} == held;
    PrependGuarded(held + {l}, boot, n, Release(l), rest);
    PrependGuarded(held, boot, n, Acquire(l), [Release(l)] + rest);
    PairThen(Acquire(l), Release(l), rest);
  }

  lemma {:induction false} EmbedCallsGuarded(held: set<Lock>, boot: bool, n: nat, calls: nat, rest: seq<Action>)
    requires Embed !in held && Guarded(held, boot, n, rest)
    ensures Guarded(held, boot, n, EmbedCalls(calls) + rest)
  {
    if calls == 0 {
      NoTail(rest);
    } else {
      EmbedCallsGuarded(held, boot, n, calls - 1, rest);
      TakeAndGiveGuarded(held, boot, n, Embed, EmbedCalls(calls - 1) + rest);
      Regroup([Acquire(Embed), Release(Embed)], EmbedCalls(calls - 1), rest);
    }
  }

  lemma PendingStep(a: Action, rest: seq<Action>, i: nat)
    requires Pending(rest, i) && (a.Acquire? || a == Release(Embed))
    ensures Pending([a] + rest, i)
  {
    HeadAndTail(a, rest);
  }

  lemma {:induction false} EmbedCallsPending(calls: nat, rest: seq<Action>, i: nat)
    requires Pending(rest, i)
    ensures Pending(EmbedCalls(calls) + rest, i)
  {
    if calls == 0 {
      NoTail(rest);
    } else {
      EmbedCallsPending(calls - 1, rest, i);
      var tail := EmbedCalls(calls - 1) + rest;
      PendingStep(Release(Embed), tail, i);
      PendingStep(Acquire(Embed), [Release(Embed)] + tail, i);
      PairThen(Acquire(Embed), Release(Embed), tail);
      Regroup([Acquire(Embed), Release(Embed)], EmbedCalls(calls - 1), rest);
    }
  }

  lemma SyncBodyGuarded(held: set<Lock>, boot: bool, n: nat, repo: nat, run: SyncRun, rest: seq<Action>)
    requires repo < n && Embed !in held && RepoMu(repo) in held && (boot ==> Work in held) && Guarded(held, boot, n, rest)
    requires HonestRun(run)
    ensures Guarded(held, boot, n, SyncBody(repo, run) + rest)
  {
    SyncBodyThen(repo, run, rest);
    if run.Ran? {
      var settle := [Settling(repo, run)] + rest;
      PrependGuarded(held, boot, n, Settling(repo, run), rest);
      EmbedCallsGuarded(held, boot, n, run.calls, settle);
      HeadAndTail(Settling(repo, run), rest);
      EmbedCallsPending(run.calls, settle, repo);
      PrependGuarded(held, boot, n, Commit(repo), EmbedCalls(run.calls) + settle);
    }
  }

  lemma SyncGuarded(held: set<Lock>, boot: bool, n: nat, repo: nat, run: SyncRun, rest: seq<Action>)
    requires repo < n && held <= {Work} && (boot ==> Work in held) && Guarded(held, boot, n, rest)
    requires HonestRun(run)
    ensures Guarded(held, boot, n, SyncSteps(repo, run) + rest)
  {
    var l := RepoMu(repo);
    var tail := [Release(l)] + rest;
    assert held + {l} - {l} == held;
    PrependGuarded(held + {l}, boot, n, Release(l), rest);
    SyncBodyGuarded(held + {l}, boot, n, repo, run, tail);
    PrependGuarded(held, boot, n, Acquire(l), SyncBody(repo, run) + tail);
    SyncStepsThen(repo, run, rest);
  }

  lemma {:induction false} BootGuarded(n: nat, runs: seq<SyncRun>, from: nat)
    requires from <= |runs| == n && forall i :: 0 <= i < |runs| ==> HonestRun(runs[i])
    ensures Guarded({}, false, n, BootSteps(runs, from))
    decreases n - from
  {
    if from < |runs| {
      BootGuarded(n, runs, from + 1);
      SyncGuarded({}, false, n, from, runs[from], BootSteps(runs, from + 1));
    }
  }

  lemma {:induction false} VisitGuarded(boot: bool, n: nat, from: nat, count: nat)
    ensures Guarded({}, boot, n, VisitAll(from, count))
    decreases count
  {
    if count > 0 {
      VisitGuarded(boot, n, from + 1, count - 1);
      TakeAndGiveGuarded({}, boot, n, RepoMu(from), VisitAll(from + 1, count - 1));
    }
  }

  /** Every job the watch thread may start guards its commits. */
  lemma JobGuarded(s: State, j: Job)
    requires MayStart(s, 0, j)
    ensures Guarded({}, s.bootstrapped, |s.repos|, Steps(j, |s.repos|))
  {
    var n := |s.repos|;
    match j
    case Boot(runs) => BootGuarded(n, runs, 0);
    case Update(i, run) =>
      var last := [Release(Work)];
      assert {Work} - {Work} == {} && {} + {Work} == {Work};
      PrependGuarded({Work}, true, n, Release(Work), []);
      NoTail(last);
      SyncGuarded({Work}, true, n, i, run, last);
      PrependGuarded({}, true, n, Acquire(Work), SyncSteps(i, run) + last);
      Regroup([Acquire(Work)], SyncSteps(i, run), last);
    case Trim =>
      var all := [TryLock(Embed, 1), Release(Embed)];
      assert all[1..] == [Release(Embed)] && all[2..] == [] && all[1..][1..] == [];
    case Shrink => VisitGuarded(s.bootstrapped, n, 0, n);
  }

  lemma {:induction false} ListsReadOnly(from: nat, count: nat)
    ensures ReadOnly(LockAll(from, count)) && ReadOnly(UnlockAll(count)) && ReadOnly(VisitAll(from, count))
    decreases count
  {
    if count > 0 {
      ListsReadOnly(from + 1, count - 1);
    }
  }

  lemma QueryReadOnly(j: Job, n: nat)
    requires IsQuery(j)
    ensures ReadOnly(Steps(j, n))
  {
    match j {
      case Search(from, count) => ListsReadOnly(from, count);
      case Visit(from, count) => ListsReadOnly(from, count);
      case View(_) => ListsReadOnly(0, n);
    }
    assert ReadOnly(QueryBody(j, n));
  }

  // ---- The invariant ----

  /** A step of thread `t` that leaves every other thread's locks and job alone. */
  lemma OthersKeep(s: State, s': State, t: nat)
    requires Inv(s) && t < |s.jobs| == |s'.jobs| && |s'.repos| == |s.repos|
    requires s.bootstrapped ==> s'.bootstrapped
    requires t != 0 ==> s'.bootstrapped == s.bootstrapped
    requires forall u :: 0 <= u < |s.jobs| && u != t ==> s'.jobs[u] == s.jobs[u] && Held(s'.owner, u) == Held(s.owner, u)
    ensures forall u {:trigger ThreadOk(s', u)} :: 0 <= u < |s'.jobs| && u != t ==> ThreadOk(s', u)
  {
    forall u {:trigger ThreadOk(s', u)} | 0 <= u < |s'.jobs| && u != t
      ensures ThreadOk(s', u)
    {
      assert ThreadOk(s, u);
    }
  }

  lemma JoinInv(s: State, t: nat)
    requires t < |s.jobs| && (forall l :: l in s.owner ==> s.owner[l] < |s.jobs|)
    requires ThreadOk(s, t) && forall u {:trigger ThreadOk(s, u)} :: 0 <= u < |s.jobs| && u != t ==> ThreadOk(s, u)
    requires forall i {:trigger RepoOk(s, i)} :: 0 <= i < |s.repos| ==> RepoOk(s, i)
    ensures Inv(s)
  {}

  lemma StartKeepsInv(s: State, t: nat, job: Job)
    requires Inv(s) && t < |s.jobs| && s.jobs[t] == [] && MayStart(s, t, job)
    ensures Inv(s.(jobs := s.jobs[t := Steps(job, |s.repos|)]))
  {
    var s' := s.(jobs := s.jobs[t := Steps(job, |s.repos|)]);
    assert ThreadOk(s, t);
    JobOrdered(job, |s.repos|);
    if t == 0 {
      JobGuarded(s, job);
    } else {
      QueryReadOnly(job, |s.repos|);
    }
    OthersKeep(s, s', t);
    forall i {:trigger RepoOk(s', i)} | 0 <= i < |s'.repos|
      ensures RepoOk(s', i)
    {
      assert RepoOk(s, i);
    }
    JoinInv(s', t);
  }

  /** Thread `t` now also holds `l`, and goes on with `rest`. */
  function Taken(s: State, t: nat, l: Lock, rest: seq<Action>): State
    requires t < |s.jobs|
  {
    s.(owner := s.owner[l := t], jobs := s.jobs[t := rest])
  }

  lemma TakeKeepsInv(s: State, t: nat, l: Lock, rest: seq<Action>)
    requires Inv(s) && t < |s.jobs| && l !in s.owner && Ordered(Held(s.owner, t) + {l}, rest)
    requires t == 0 ==> Guarded(Held(s.owner, 0) + {l}, s.bootstrapped, |s.repos|, rest)
    requires t > 0 ==> ReadOnly(rest) && s.bootstrapped
    requires t == 0 ==> forall i :: 0 <= i < |s.repos| && Pending(s.jobs[0], i) ==> Pending(rest, i)
    ensures Inv(Taken(s, t, l, rest))
  {
    var s' := Taken(s, t, l, rest);
    forall u | 0 <= u < |s.jobs|
      ensures Held(s'.owner, u) == if u == t then Held(s.owner, t) + {l} else Held(s.owner, u)
    {}
    OthersKeep(s, s', t);
    forall i {:trigger RepoOk(s', i)} | 0 <= i < |s'.repos|
      ensures RepoOk(s', i)
    {
      assert RepoOk(s, i);
    }
    JoinInv(s', t);
  }

  function Given(s: State, t: nat, l: Lock, rest: seq<Action>): State
    requires t < |s.jobs|
  {
    s.(owner := s.owner - {l}, jobs := s.jobs[t := rest])
  }

  lemma GiveKeepsInv(s: State, t: nat)
    requires Inv(s) && t < |s.jobs| && s.jobs[t] != [] && s.jobs[t][0].Release?
    ensures Inv(Given(s, t, s.jobs[t][0].l, s.jobs[t][1..]))
  {
    var l, rest := s.jobs[t][0].l, s.jobs[t][1..];
    var s' := Given(s, t, l, rest);
    assert ThreadOk(s, t);
    forall u | 0 <= u < |s.jobs|
      ensures Held(s'.owner, u) == if u == t then Held(s.owner, t) - {l} else Held(s.owner, u)
    {}
    OthersKeep(s, s', t);
    forall i {:trigger RepoOk(s', i)} | 0 <= i < |s'.repos|
      ensures RepoOk(s', i)
    {
      assert RepoOk(s, i);
    }
    JoinInv(s', t);
  }

  lemma TryKeepsInv(s: State, t: nat)
    requires Inv(s) && t < |s.jobs| && s.jobs[t] != [] && s.jobs[t][0].TryLock?
    ensures s.jobs[t][0].l in s.owner ==>
              1 + s.jobs[t][0].n <= |s.jobs[t]| && Inv(s.(jobs := s.jobs[t := s.jobs[t][1 + s.jobs[t][0].n..]]))
    ensures s.jobs[t][0].l !in s.owner ==> Inv(Taken(s, t, s.jobs[t][0].l, s.jobs[t][1..]))
  {
    var l, n := s.jobs[t][0].l, s.jobs[t][0].n;
    assert ThreadOk(s, t);
    if l in s.owner {
      var s' := s.(jobs := s.jobs[t := s.jobs[t][1 + n..]]);
      OthersKeep(s, s', t);
      forall i {:trigger RepoOk(s', i)} | 0 <= i < |s'.repos|
        ensures RepoOk(s', i)
      {
        assert RepoOk(s, i);
      }
      JoinInv(s', t);
    } else {
      TakeKeepsInv(s, t, l, s.jobs[t][1..]);
    }
  }

  lemma AcquireKeepsInv(s: State, t: nat)
    requires Inv(s) && t < |s.jobs| && s.jobs[t] != [] && s.jobs[t][0].Acquire? && s.jobs[t][0].l !in s.owner
    ensures Inv(Taken(s, t, s.jobs[t][0].l, s.jobs[t][1..]))
  {
    assert ThreadOk(s, t);
    TakeKeepsInv(s, t, s.jobs[t][0].l, s.jobs[t][1..]);
  }

  lemma DataKeepsInv(s: State, t: nat)
    requires Inv(s) && t < |s.jobs| && s.jobs[t] != [] && (s.jobs[t][0].Commit? || s.jobs[t][0].Settle?)
    ensures t == 0 && s.jobs[t][0].repo < |s.repos|
    ensures var i := s.jobs[t][0].repo;
            Inv(s.(repos := s.repos[i := Settled(s.repos[i], s.jobs[t][0])], jobs := s.jobs[t := s.jobs[t][1..]]))
  {
    assert ThreadOk(s, t);
    var a := s.jobs[t][0];
    var s' := s.(repos := s.repos[a.repo := Settled(s.repos[a.repo], a)], jobs := s.jobs[t := s.jobs[t][1..]]);
    OthersKeep(s, s', t);
    forall i {:trigger RepoOk(s', i)} | 0 <= i < |s'.repos|
      ensures RepoOk(s', i)
    {
      assert RepoOk(s, i);
    }
    JoinInv(s', t);
  }

  lemma BootstrappedKeepsInv(s: State, t: nat)
    requires Inv(s) && t < |s.jobs| && s.jobs[t] != [] && s.jobs[t][0].Bootstrapped?
    ensures Inv(s.(bootstrapped := true, jobs := s.jobs[t := s.jobs[t][1..]]))
  {
    assert ThreadOk(s, t);
    var s' := s.(bootstrapped := true, jobs := s.jobs[t := s.jobs[t][1..]]);
    OthersKeep(s, s', t);
    forall i {:trigger RepoOk(s', i)} | 0 <= i < |s'.repos|
      ensures RepoOk(s', i)
    {
      assert RepoOk(s, i);
    }
    JoinInv(s', t);
  }

  /** Every step of every thread keeps the invariant. */
  lemma StepKeepsInv(s: State, t: nat, job: Job)
    requires Inv(s) && Step(s, t, job).Some?
    ensures Inv(Step(s, t, job).value)
  {
    if s.jobs[t] == [] {
      StartKeepsInv(s, t, job);
    } else {
      match s.jobs[t][0]
      case Acquire(_) => AcquireKeepsInv(s, t);
      case Release(_) => GiveKeepsInv(s, t);
      case TryLock(_, _) => TryKeepsInv(s, t);
      case Commit(_) => DataKeepsInv(s, t);
      case Settle(_, _, _, _) => DataKeepsInv(s, t);
      case Bootstrapped => BootstrappedKeepsInv(s, t);
    }
  }

  /** So it holds in every state any interleaving reaches. */
  lemma {:induction false} RunKeepsInv(s: State, cs: seq<Choice>)
    requires Initial(s) && |s.jobs| > 0
    ensures Inv(Run(s, cs))
  {
    if cs == [] {
      forall t {:trigger ThreadOk(s, t)} | 0 <= t < |s.jobs|
        ensures ThreadOk(s, t)
      {
        assert Held(s.owner, t) == {};
      }
      forall i {:trigger RepoOk(s, i)} | 0 <= i < |s.repos|
        ensures RepoOk(s, i)
      {}
    } else {
      var n := |cs| - 1;
      RunKeepsInv(s, cs[..n]);
      if Step(Run(s, cs[..n]), cs[n].thread, cs[n].job).Some? {
        StepKeepsInv(Run(s, cs[..n]), cs[n].thread, cs[n].job);
      }
    }
  }

  // ---- No deadlock ----

  /** The thread that holds what a blocked thread waits for. */
  function WaitsFor(s: State, t: nat): nat
    requires Blocked(s, t)
  {
    s.owner[s.jobs[t][0].l]
  }

  /** A blocked thread waits for a lock above every lock it holds. */
  lemma WaitsAbove(s: State, t: nat, h: Lock)
    requires Inv(s) && Blocked(s, t) && h in s.owner && s.owner[h] == t
    ensures Below(h, s.jobs[t][0].l)
  {
    assert ThreadOk(s, t);
    assert h in Held(s.owner, t);
  }

  /** `chain` goes from each blocked thread to the one it waits for. */
  ghost predicate IsChain(s: State, chain: seq<nat>) {
    forall k :: 0 <= k < |chain| ==> Blocked(s, chain[k]) && (k + 1 < |chain| ==> chain[k + 1] == WaitsFor(s, chain[k]))
  }

  lemma BelowIsTransitive(a: Lock, b: Lock, c: Lock)
    ensures Below(a, b) && Below(b, c) ==> Below(a, c)
    ensures !Below(a, a)
  {}

  lemma {:induction false} ChainClimbs(s: State, chain: seq<nat>, k: nat)
    requires Inv(s) && IsChain(s, chain) && 0 < k < |chain|
    ensures Below(s.jobs[chain[0]][0].l, s.jobs[chain[k]][0].l)
  {
    var before, at := chain[k - 1], chain[k];
    WaitsAbove(s, at, s.jobs[before][0].l);
    if k > 1 {
      ChainClimbs(s, chain, k - 1);
      BelowIsTransitive(s.jobs[chain[0]][0].l, s.jobs[before][0].l, s.jobs[at][0].l);
    }
  }

  /** In no reachable state do threads wait for each other in a circle, or for themselves. */
  lemma NoCircularWait(s: State, cs: seq<Choice>, chain: seq<nat>)
    requires Initial(s) && |s.jobs| > 0 && chain != []
    ensures var now := Run(s, cs);
            IsChain(now, chain) ==> WaitsFor(now, chain[|chain| - 1]) != chain[0]
  {
    var now := Run(s, cs);
    RunKeepsInv(s, cs);
    if IsChain(now, chain) && WaitsFor(now, chain[|chain| - 1]) == chain[0] {
      var n := |chain| - 1;
      WaitsAbove(now, chain[0], now.jobs[chain[n]][0].l);
      if n > 0 {
        ChainClimbs(now, chain, n);
      }
    }
  }

  /** The held locks at or above one. */
  function HeldFrom(owner: map<Lock, nat>, l: Lock): set<Lock> {
    set h | h in owner && (h == l || Below(l, h))
  }

  /** A thread in the middle of a job that is not waiting can move. */
  lemma CanMove(s: State, t: nat, job: Job)
    requires Inv(s) && t < |s.jobs| && s.jobs[t] != [] && !Blocked(s, t)
    ensures Step(s, t, job).Some?
  {
    assert ThreadOk(s, t);
  }

  /** Whoever is waiting, somebody in the middle of a job can move. */
  lemma {:induction false} SomebodyMoves(s: State, t: nat) returns (u: nat)
    requires Inv(s) && Blocked(s, t)
    ensures u < |s.jobs| && s.jobs[u] != [] && !Blocked(s, u)
    decreases |HeldFrom(s.owner, s.jobs[t][0].l)|
  {
    var l := s.jobs[t][0].l;
    u := WaitsFor(s, t);
    assert ThreadOk(s, u);
    assert l in Held(s.owner, u);
    if Blocked(s, u) {
      var m := s.jobs[u][0].l;
      WaitsAbove(s, u, l);
      forall h | h in HeldFrom(s.owner, m)
        ensures h in HeldFrom(s.owner, l)
      {
        BelowIsTransitive(l, m, h);
      }
      BelowIsTransitive(m, l, m);
      assert l in HeldFrom(s.owner, l) && l !in HeldFrom(s.owner, m);
      Smaller(HeldFrom(s.owner, m), HeldFrom(s.owner, l), l);
      u := SomebodyMoves(s, u);
    }
  }

  lemma Smaller<T>(a: set<T>, b: set<T>, x: T)
    requires a <= b && x in b && x !in a
    ensures |a| < |b|
  {
    var c := b - {x};
    assert a <= c && |c| == |b| - 1;
    Included(a, c);
  }

  lemma {:induction false} Included<T>(a: set<T>, b: set<T>)
    requires a <= b
    ensures |a| <= |b|
  {
    if a != {} {
      var x :| x in a;
      Included(a - {x}, b - {x});
    }
  }

  /** The system never seizes up: while any job is unfinished, some thread can take its next step. */
  lemma NoDeadlock(s: State, cs: seq<Choice>, t: nat, job: Job) returns (u: nat)
    requires Initial(s) && t < |s.jobs| && Run(s, cs).jobs != [] && t < |Run(s, cs).jobs| && Run(s, cs).jobs[t] != []
    ensures Step(Run(s, cs), u, job).Some? && u < |Run(s, cs).jobs| && Run(s, cs).jobs[u] != []
  {
    var now := Run(s, cs);
    RunKeepsInv(s, cs);
    u := t;
    if Blocked(now, t) {
      u := SomebodyMoves(now, t);
    }
    CanMove(now, u, job);
  }

  // ---- What a query can see ----

  /** A query that has a repository's lock never finds it ready, open and torn. */
  lemma QueryNeverSeesTorn(s: State, cs: seq<Choice>, t: nat, i: nat)
    requires Initial(s) && |s.jobs| > 0 && t > 0
    ensures var now := Run(s, cs);
            i < |now.repos| && RepoMu(i) in now.owner && now.owner[RepoMu(i)] == t ==> !Torn(now.repos[i])
  {
    RunKeepsInv(s, cs);
    var now := Run(s, cs);
    if i < |now.repos| {
      assert RepoOk(now, i);
    }
  }

  /** From the gate to the reply a query sees one snapshot: no repository is torn, and no other thread's step changes any. */
  lemma QuerySeesOneSnapshot(s: State, cs: seq<Choice>, t: nat, u: nat, job: Job)
    requires Initial(s) && |s.jobs| > 0 && t > 0
    ensures var now := Run(s, cs);
            Work in now.owner && now.owner[Work] == t ==>
              && (forall i :: 0 <= i < |now.repos| ==> !Torn(now.repos[i]))
              && (Step(now, u, job).Some? ==> Step(now, u, job).value.repos == now.repos)
  {
    RunKeepsInv(s, cs);
    var now := Run(s, cs);
    if Work in now.owner && now.owner[Work] == t {
      assert ThreadOk(now, t);
      assert Work in Held(now.owner, t);
      assert now.jobs[t] != [];
      forall i | 0 <= i < |now.repos|
        ensures !Torn(now.repos[i])
      {
        assert RepoOk(now, i);
      }
      if u < |now.jobs| && now.jobs[u] != [] {
        assert ThreadOk(now, u);
      }
    }
  }
}
