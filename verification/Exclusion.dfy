/**
 Why no job runs twice at once although claiming marks nothing: as long as no
 drain is abandoned with work in flight, the claimed jobs, the running goroutines
 and the rows they came from stay in step, and the barrier drains every goroutine
 first.
 */
module Exclusion {
  import opened Backoff
  import opened Queue
  import opened Delivery
  import opened Worker

  /** The row is still exactly as it was claimed, due at that time. */
  ghost predicate Held(q: Table, j: Job, atMillis: int) {
    Due(q, j.id, atMillis) && j == JobOf(j.id, q.rows[j.id])
  }

  ghost predicate DistinctJobs(jobs: seq<Job>) {
    forall i, j :: 0 <= i < j < |jobs| ==> jobs[i].id != jobs[j].id
  }

  ghost predicate DistinctTasks(tasks: map<nat, Task>) {
    forall t, u :: t in tasks && u in tasks && t != u ==> tasks[t].job.id != tasks[u].job.id
  }

  ghost predicate Apart(tasks: map<nat, Task>, jobs: seq<Job>) {
    forall t, i :: t in tasks && 0 <= i < |jobs| ==> tasks[t].job.id != jobs[i].id
  }

  ghost predicate JobsHeld(q: Table, jobs: seq<Job>, atMillis: int) {
    forall i :: 0 <= i < |jobs| ==> Held(q, jobs[i], atMillis)
  }

  ghost predicate TasksHeld(q: Table, tasks: map<nat, Task>, atMillis: int) {
    forall t :: t in tasks && !tasks[t].stage.Written? ==> Held(q, tasks[t].job, atMillis)
  }

  ghost predicate OneDrain(tasks: map<nat, Task>, drain: nat, claimedAt: int) {
    forall t :: t in tasks ==> tasks[t].drain == drain && tasks[t].claimedAt == claimedAt
  }

  ghost predicate Exclusive(s: State) {
    var waiting, at := Waiting(s.phase), Millis(s.claimedAt);
    && DistinctTasks(s.tasks) && DistinctJobs(waiting) && Apart(s.tasks, waiting)
    && JobsHeld(s.table, waiting, at) && TasksHeld(s.table, s.tasks, at)
    && OneDrain(s.tasks, s.drain, s.claimedAt)
    && (s.phase.Idle? ==> s.tasks == map[])
  }

  ghost predicate Inv(s: State) {
    Sound(s) && Accounted(s) && (!s.cancelled ==> Exclusive(s))
  }

  // --- one lemma per kind of step ---

  lemma ArriveKeeps(s: State, l: Label)
    requires Sound(s) && Exclusive(s) && l.Arrive?
    ensures Exclusive(Arriving(s, l))
  {
    var n := Arriving(s, l);
    assert forall i :: 0 <= i < |Waiting(s.phase)| ==> SoundJob(Waiting(s.phase)[i], s.table.lastId);
    assert forall t :: t in s.tasks ==> SoundJob(s.tasks[t].job, s.table.lastId);
    assert forall id :: 1 <= id <= s.table.lastId ==>
      (id in n.table.rows <==> id in s.table.rows) && (id in s.table.rows ==> n.table.rows[id] == s.table.rows[id]);
  }

  lemma ClaimKeeps(s: State, now: int, limit: int, jobs: seq<Job>)
    requires Exclusive(s) && s.phase.Idle? && IsClaim(s.table, Millis(now), limit, jobs)
    ensures Exclusive(Claiming(s, now, jobs))
  {
    assert Waiting(Continue(jobs)) == jobs;
  }

  lemma SpawnKeeps(s: State)
    requires Sound(s) && Accounted(s) && Exclusive(s) && s.phase.Holding?
    ensures Exclusive(Spawning(s))
  {
    var rest, n := s.phase.rest, Spawning(s);
    assert Waiting(s.phase) == rest && Waiting(n.phase) == rest[1..];
    assert forall i :: 0 <= i < |rest[1..]| ==> rest[1..][i] == rest[i + 1];
    assert s.nextTask !in s.tasks;
  }

  lemma AdvanceKeeps(s: State, n: State, t: nat, stage: Stage)
    requires Exclusive(s) && t in s.tasks && n.tasks == Advance(s, t, stage)
    requires n.phase == s.phase && n.drain == s.drain && n.claimedAt == s.claimedAt && n.table == s.table
    requires s.tasks[t].stage.Written? ==> stage.Written?
    ensures Exclusive(n)
  {
  }

  /** A queue write touches one row only. */
  lemma SettleElsewhere(q: Table, id: int, f: Fate, other: int)
    requires other != id
    ensures var r := Settle(q, id, f);
      (other in r.rows <==> other in q.rows) && (other in q.rows ==> r.rows[other] == q.rows[other])
  {
  }

  lemma WriteKeeps(s: State, t: nat, now: int, accepted: bool)
    requires Sound(s) && Exclusive(s) && t in s.tasks
    ensures SoundJob(s.tasks[t].job, s.table.lastId)
    ensures Exclusive(Writing(s, t, now, accepted))
  {
    var k := s.tasks[t];
    assert SoundJob(k.job, s.table.lastId);
    var n := Writing(s, t, now, accepted);
    var f := FateOf(s.settings, k.job, Seen(k, now, accepted));
    var at := Millis(s.claimedAt);
    forall j: Job | j.id != k.job.id && Held(s.table, j, at)
      ensures Held(n.table, j, at)
    {
      SettleElsewhere(s.table, k.job.id, f, j.id);
    }
    assert DistinctTasks(n.tasks) && Apart(n.tasks, Waiting(n.phase)) && OneDrain(n.tasks, n.drain, n.claimedAt);
    assert JobsHeld(n.table, Waiting(n.phase), at);
    assert TasksHeld(n.table, n.tasks, at);
  }

  lemma ReleaseKeeps(s: State, t: nat)
    requires Exclusive(s) && t in s.tasks && s.tasks[t].stage.Written?
    ensures Exclusive(Releasing(s, t))
  {
  }

  /** The last token of the barrier fits only when no goroutine holds one. */
  lemma FillKeeps(s: State)
    requires Accounted(s) && Exclusive(s) && s.phase.Filling? && s.tokens < Cap(s)
    ensures Exclusive(Filled(s))
  {
    if s.phase.filled + 1 >= Cap(s) {
      assert Current(s) == {};
      assert forall t :: t in s.tasks ==> t in Current(s);
      assert s.tasks.Keys == {};
    }
  }

  /** A restart begins with nothing in flight. */
  lemma RestartKeeps(s: State, restart: Settings)
    ensures Exclusive(Restarting(s, restart))
  {
  }

  /** A step that leaves claimed work where it is. */
  lemma LoopKeeps(s: State, l: Label)
    requires Sound(s) && Exclusive(s) && Enabled(s, l) && (l.Inline? || l.ClaimFails? || l.Acquire? || l.Cancel?)
    ensures Exclusive(Next(s, l))
  {
  }

  /** The draining loop gives up while goroutines are still at work. */
  predicate LeavesBehind(s: State, l: Label) {
    l.Abandon? && s.tasks != map[]
  }

  /** Whether cancelled or not, exactly one kind of step breaks exclusion: abandoning a drain with work in flight. */
  lemma ExclusiveStep(s: State, l: Label)
    requires Sound(s) && Accounted(s) && Exclusive(s) && Enabled(s, l)
    ensures Exclusive(Next(s, l)) <==> !LeavesBehind(s, l)
  {
    match l
    case Arrive(_, _, _, _, _) => ArriveKeeps(s, l);
    case Claim(now, jobs) => ClaimKeeps(s, now, 4 * Cap(s), jobs);
    case Spawn => SpawnKeeps(s);
    case Abandon => assert Next(s, l).phase.Idle? && Next(s, l).tasks == s.tasks;
    case Reply(t, wire) => AdvanceKeeps(s, Next(s, l), t, Replied(wire));
    case Note(t, _) => AdvanceKeeps(s, Next(s, l), t, Noted(s.tasks[t].stage.wire));
    case Write(t, now, accepted) => WriteKeeps(s, t, now, accepted);
    case Release(t) => ReleaseKeeps(s, t);
    case Fill => FillKeeps(s);
    case Crash(restart) => RestartKeeps(s, restart);
    case _ => LoopKeeps(s, l);
  }

  lemma InvStep(s: State, l: Label)
    requires Inv(s) && Enabled(s, l)
    ensures Inv(Next(s, l))
  {
    SoundStep(s, l);
    AccountedStep(s, l);
    if !Next(s, l).cancelled {
      if l.Crash? { RestartKeeps(s, l.restart); } else { ExclusiveStep(s, l); }
    }
  }

  // --- whole runs ---

  ghost predicate Runnable(s: State, ls: seq<Label>)
    requires Sound(s)
    decreases ls
  {
    ls == [] || (Enabled(s, ls[0]) && (SoundStep(s, ls[0]); Runnable(Next(s, ls[0]), ls[1..])))
  }

  ghost function After(s: State, ls: seq<Label>): (n: State)
    requires Sound(s) && Runnable(s, ls)
    ensures Sound(n)
    decreases ls
  {
    if ls == [] then s else (SoundStep(s, ls[0]); After(Next(s, ls[0]), ls[1..]))
  }

  lemma {:induction false} InvRun(s: State, ls: seq<Label>)
    requires Inv(s) && Runnable(s, ls)
    ensures Inv(After(s, ls))
    decreases ls
  {
    if ls != [] {
      InvStep(s, ls[0]);
      InvRun(Next(s, ls[0]), ls[1..]);
    }
  }

  lemma InvStart(settings: Settings)
    requires settings.delivery.concurrency >= 1
    ensures Inv(Start(settings))
  {
    assert Current(Start(settings)) == {};
  }

  /** At most `Concurrency` goroutines, no job twice among those running and waiting, rows unchanged until written, none between drains. */
  ghost predicate MutuallyExclusive(s: State) {
    && |s.tasks| <= Cap(s)
    && DistinctTasks(s.tasks) && Apart(s.tasks, Waiting(s.phase)) && DistinctJobs(Waiting(s.phase))
    && TasksHeld(s.table, s.tasks, Millis(s.claimedAt))
    && (s.phase.Idle? ==> s.tasks == map[])
  }

  lemma ExclusiveBounds(s: State)
    requires Accounted(s) && Exclusive(s)
    ensures MutuallyExclusive(s)
  {
    assert s.tasks.Keys == Current(s);
    assert |s.tasks| == |s.tasks.Keys|;
  }

  /** Whether the run ends with no drain left behind since it began or since its last crash; `tidy` is how it starts. */
  ghost predicate Tidy(s: State, ls: seq<Label>, tidy: bool)
    requires Sound(s) && Runnable(s, ls)
    decreases ls
  {
    if ls == [] then tidy
    else (SoundStep(s, ls[0]); Tidy(Next(s, ls[0]), ls[1..], ls[0].Crash? || (tidy && !LeavesBehind(s, ls[0]))))
  }

  lemma {:induction false} TidyRun(s: State, ls: seq<Label>, tidy: bool)
    requires Sound(s) && Accounted(s) && Runnable(s, ls) && Tidy(s, ls, tidy) && (tidy ==> Exclusive(s))
    ensures Accounted(After(s, ls)) && Exclusive(After(s, ls))
    decreases ls
  {
    if ls != [] {
      var l := ls[0];
      SoundStep(s, l);
      AccountedStep(s, l);
      if l.Crash? { RestartKeeps(s, l.restart); } else if tidy { ExclusiveStep(s, l); }
      TidyRun(Next(s, l), ls[1..], l.Crash? || (tidy && !LeavesBehind(s, l)));
    }
  }

  /** Without cancellation in force, no drain can have been left behind. */
  lemma {:induction false} UncancelledIsTidy(s: State, ls: seq<Label>, tidy: bool)
    requires Sound(s) && Runnable(s, ls) && (!s.cancelled ==> tidy) && !After(s, ls).cancelled
    ensures Tidy(s, ls, tidy)
    decreases ls
  {
    if ls != [] {
      SoundStep(s, ls[0]);
      UncancelledIsTidy(Next(s, ls[0]), ls[1..], ls[0].Crash? || (tidy && !LeavesBehind(s, ls[0])));
    }
  }

  /**
   Mutual exclusion after every run, cancelled or not, in which no drain has been
   abandoned with work in flight since the process last started.
   */
  lemma ExclusionWhileTidy(settings: Settings, ls: seq<Label>)
    requires settings.delivery.concurrency >= 1 && Runnable(Start(settings), ls) && Tidy(Start(settings), ls, true)
    ensures MutuallyExclusive(After(Start(settings), ls))
  {
    InvStart(settings);
    TidyRun(Start(settings), ls, true);
    ExclusiveBounds(After(Start(settings), ls));
  }

  /** In particular in every reachable state that is not past cancellation. */
  lemma MutualExclusion(settings: Settings, ls: seq<Label>)
    requires settings.delivery.concurrency >= 1 && Runnable(Start(settings), ls)
    ensures !After(Start(settings), ls).cancelled ==> MutuallyExclusive(After(Start(settings), ls))
  {
    if !After(Start(settings), ls).cancelled {
      UncancelledIsTidy(Start(settings), ls, true);
      ExclusionWhileTidy(settings, ls);
    }
  }
}
