/** A completed drain calls the webhook of each job it claimed exactly once, and of no other job. */
module Once {
  import opened Queue
  import opened Delivery
  import opened Worker
  import opened Exclusion
  import opened Progress
  import opened Serial
  import opened Attempts

  /** Not called yet in this drain: still to be started, or started and nothing done. */
  ghost predicate Uncalled(s: State, id: int) {
    Taken(Waiting(s.phase), id) || exists t :: t in s.tasks && s.tasks[t].job.id == id && s.tasks[t].stage.Ready?
  }

  /** Job `id` was claimed and has a route to go to. */
  ghost predicate Callable(settings: Settings, jobs: seq<Job>, id: int) {
    exists i :: 0 <= i < |jobs| && jobs[i].id == id && jobs[i].route in settings.routes
  }

  ghost predicate CalledOnce(b: State, jobs: seq<Job>, s: State, id: int) {
    Calls(s.trace, id) == Calls(b.trace, id) + if Callable(b.settings, jobs, id) && !Uncalled(s, id) then 1 else 0
  }

  /** Moving one goroutine on changes only whether its own job is uncalled. */
  lemma UncalledElsewhere(s: State, n: State, t: nat, stage: Stage, id: int)
    requires Exclusive(s) && t in s.tasks && n.tasks == Advance(s, t, stage) && n.phase == s.phase && !stage.Ready?
    ensures s.tasks[t].job.id != id ==> (Uncalled(n, id) <==> Uncalled(s, id))
    ensures s.tasks[t].job.id == id ==> !Uncalled(n, id)
    ensures s.tasks[t].job.id == id ==> (Uncalled(s, id) <==> s.tasks[t].stage.Ready?)
  {
    assert n.tasks[t].job == s.tasks[t].job && n.tasks[t].stage == stage;
    assert forall u :: u in s.tasks && u != t ==> n.tasks[u] == s.tasks[u];
    if u :| u in s.tasks && s.tasks[u].job.id == id && s.tasks[u].stage.Ready? {
      assert n.tasks[u] == s.tasks[u] || u == t;
    }
    if u :| u in n.tasks && n.tasks[u].job.id == id && n.tasks[u].stage.Ready? {
      assert n.tasks[u] == s.tasks[u] || u == t;
    }
  }

  lemma ReplyOnce(b: State, jobs: seq<Job>, s: State, t: nat, wire: Wire, id: int)
    requires Midway(b, jobs, s) && CalledOnce(b, jobs, s, id) && Enabled(s, Reply(t, wire))
    ensures CalledOnce(b, jobs, Replying(s, t, wire), id)
  {
    var j := s.tasks[t].job;
    UncalledElsewhere(s, Replying(s, t, wire), t, Replied(wire), id);
    CountsSnoc(s.trace, Called(j, wire, s.settings), id);
    var i := IndexOfJob(jobs, j);
    assert j.id == id ==> Callable(b.settings, jobs, id);
  }

  lemma WriteOnce(b: State, jobs: seq<Job>, s: State, t: nat, now: int, accepted: bool, id: int)
    requires Midway(b, jobs, s) && CalledOnce(b, jobs, s, id) && Enabled(s, Write(t, now, accepted))
    requires SoundJob(s.tasks[t].job, s.table.lastId)
    ensures CalledOnce(b, jobs, Writing(s, t, now, accepted), id)
  {
    var k := s.tasks[t];
    UncalledElsewhere(s, Writing(s, t, now, accepted), t, Written, id);
    WriteEventCounts(s, k, accepted, id);
    CountsAppend(s.trace, WriteEvents(s, k, accepted), id);
    if k.job.id == id && k.stage.Ready? {
      var i := IndexOfJob(jobs, k.job);
      assert forall x :: 0 <= x < |jobs| && jobs[x].id == id ==> x == i;
      assert !Callable(b.settings, jobs, id);
    }
  }

  lemma SpawnUncalled(s: State, id: int)
    requires s.phase.Holding? && s.phase.rest != [] && s.nextTask !in s.tasks
    ensures Uncalled(Spawning(s), id) <==> Uncalled(s, id)
  {
    var n, rest := Spawning(s), s.phase.rest;
    var later := rest[1..];
    assert Waiting(s.phase) == rest && Waiting(n.phase) == later;
    assert n.tasks[s.nextTask].job == rest[0] && n.tasks[s.nextTask].stage == Ready;
    assert forall u :: u in s.tasks ==> n.tasks[u] == s.tasks[u];
    if i :| 0 <= i < |rest| && rest[i].id == id {
      assert i > 0 ==> later[i - 1].id == id;
    }
    if i :| 0 <= i < |later| && later[i].id == id {
      assert rest[i + 1].id == id;
    }
    if u :| u in s.tasks && s.tasks[u].job.id == id && s.tasks[u].stage.Ready? {
      assert n.tasks[u] == s.tasks[u];
    }
    if u :| u in n.tasks && n.tasks[u].job.id == id && n.tasks[u].stage.Ready? {
      assert u == s.nextTask || n.tasks[u] == s.tasks[u];
    }
  }

  /** A step that calls nobody and changes nobody's turn. */
  lemma QuietOnce(b: State, jobs: seq<Job>, s: State, n: State, id: int)
    requires CalledOnce(b, jobs, s, id) && Calls(n.trace, id) == Calls(s.trace, id)
    requires Uncalled(n, id) <==> Uncalled(s, id)
    ensures CalledOnce(b, jobs, n, id)
  {
  }

  lemma SpawnOnce(b: State, jobs: seq<Job>, s: State, id: int)
    requires Midway(b, jobs, s) && CalledOnce(b, jobs, s, id) && s.phase.Holding?
    ensures CalledOnce(b, jobs, Spawning(s), id)
  {
    SpawnUncalled(s, id);
    QuietOnce(b, jobs, s, Spawning(s), id);
  }

  lemma NoteOnce(b: State, jobs: seq<Job>, s: State, t: nat, accepted: bool, id: int)
    requires Midway(b, jobs, s) && CalledOnce(b, jobs, s, id) && t in s.tasks && s.tasks[t].stage.Replied?
    ensures CalledOnce(b, jobs, Noting(s, t, accepted), id)
  {
    var n := Noting(s, t, accepted);
    UncalledElsewhere(s, n, t, Noted(s.tasks[t].stage.wire), id);
    QuietOnce(b, jobs, s, n, id);
  }

  lemma ArriveOnce(b: State, jobs: seq<Job>, s: State, l: Label, id: int)
    requires CalledOnce(b, jobs, s, id) && l.Arrive?
    ensures CalledOnce(b, jobs, Arriving(s, l), id)
  {
    CountsSnoc(s.trace, Arrived(s.table.lastId + 1, l.messageId, l.route, l.payload), id);
    QuietOnce(b, jobs, s, Arriving(s, l), id);
  }

  lemma ReleaseOnce(b: State, jobs: seq<Job>, s: State, t: nat, id: int)
    requires CalledOnce(b, jobs, s, id) && t in s.tasks && s.tasks[t].stage.Written?
    ensures CalledOnce(b, jobs, Releasing(s, t), id)
  {
    var n := Releasing(s, t);
    assert forall u :: u in s.tasks && u != t ==> u in n.tasks && n.tasks[u] == s.tasks[u];
    if u :| u in s.tasks && s.tasks[u].job.id == id && s.tasks[u].stage.Ready? {
      assert n.tasks[u] == s.tasks[u];
    }
  }

  lemma StepOnce(b: State, jobs: seq<Job>, s: State, l: Label, id: int)
    requires Midway(b, jobs, s) && CalledOnce(b, jobs, s, id) && Enabled(s, l) && DuringDrain(l)
    ensures CalledOnce(b, jobs, Next(s, l), id)
  {
    match l
    case Arrive(_, _, _, _, _) => ArriveOnce(b, jobs, s, l, id);
    case Inline(_, _) => QuietOnce(b, jobs, s, Next(s, l), id);
    case Spawn => SpawnOnce(b, jobs, s, id);
    case Reply(t, wire) => ReplyOnce(b, jobs, s, t, wire, id);
    case Note(t, accepted) => NoteOnce(b, jobs, s, t, accepted, id);
    case Write(t, now, accepted) =>
      assert SoundJob(s.tasks[t].job, s.table.lastId);
      WriteOnce(b, jobs, s, t, now, accepted, id);
    case Release(t) => ReleaseOnce(b, jobs, s, t, id);
    case Acquire => QuietOnce(b, jobs, s, Next(s, l), id);
    case Fill => QuietOnce(b, jobs, s, Next(s, l), id);
  }

  lemma {:induction false} RunOnce(b: State, jobs: seq<Job>, s: State, ls: seq<Label>, id: int)
    requires Midway(b, jobs, s) && CalledOnce(b, jobs, s, id) && Runnable(s, ls)
    requires forall i :: 0 <= i < |ls| ==> DuringDrain(ls[i])
    ensures CalledOnce(b, jobs, After(s, ls), id)
    decreases ls
  {
    if ls != [] {
      StepOnce(b, jobs, s, ls[0], id);
      MidwayStep(b, jobs, s, ls[0]);
      RunOnce(b, jobs, Next(s, ls[0]), ls[1..], id);
    }
  }

  /** In a completed drain each claimed job with a known route is called once, every other job not at all. */
  lemma OncePerDrain(s: State, now: int, jobs: seq<Job>, ls: seq<Label>, id: int)
    requires CompleteDrain(s, now, jobs, ls)
    ensures Calls(DrainEnd(s, now, jobs, ls).trace, id) == Calls(s.trace, id) + if Callable(s.settings, jobs, id) then 1 else 0
  {
    var b := Claiming(s, now, jobs);
    MidwayStart(s, now, jobs);
    assert Waiting(b.phase) == jobs;
    assert Callable(b.settings, jobs, id) ==> Taken(Waiting(b.phase), id);
    RunOnce(b, jobs, b, ls, id);
    MidwayRun(b, jobs, b, ls);
    var n := DrainEnd(s, now, jobs, ls);
    assert n.tasks == map[] && Waiting(n.phase) == [];
  }
}
