/**
 How often a job is attempted. Settings are fixed and nothing is cancelled;
 writes may be refused and the process may crash at any point.
 */
module Attempts {
  import opened Backoff
  import opened Queue
  import opened Delivery
  import opened Worker
  import opened Exclusion

  function Tally(e: Event, id: int): nat {
    if e.Called? && e.job.id == id then 1 else 0
  }

  /** A queue write refused for this job, or a crash after its call and before its write. */
  function Blame(e: Event, id: int): nat {
    if (e.Refused? && e.failed == id) || (e.Crashed? && id in e.hit) then 1 else 0
  }

  function Calls(trace: seq<Event>, id: int): nat {
    if trace == [] then 0 else Calls(trace[..|trace| - 1], id) + Tally(trace[|trace| - 1], id)
  }

  function Faults(trace: seq<Event>, id: int): nat {
    if trace == [] then 0 else Faults(trace[..|trace| - 1], id) + Blame(trace[|trace| - 1], id)
  }

  lemma CountsSnoc(trace: seq<Event>, e: Event, id: int)
    ensures Calls(trace + [e], id) == Calls(trace, id) + Tally(e, id)
    ensures Faults(trace + [e], id) == Faults(trace, id) + Blame(e, id)
  {
    assert (trace + [e])[..|trace|] == trace;
  }

  function AtLeastOne(n: int): int {
    if n < 1 then 1 else n
  }

  /** A goroutine has called for this job and not yet recorded it. */
  predicate Pending(s: State, id: int) {
    id in Unrecorded(s.tasks)
  }

  ghost predicate AttemptInv(s: State, id: int) {
    var calls, faults := Calls(s.trace, id), Faults(s.trace, id);
    if id > s.table.lastId then calls == 0
    else if id in s.table.rows then
      var made := s.table.rows[id].attempts;
      var pending := if Pending(s, id) then 1 else 0;
      && made + pending <= calls <= made + pending + faults
      && made + 1 <= AtLeastOne(s.settings.delivery.maxRetries)
    else calls <= AtLeastOne(s.settings.delivery.maxRetries) + faults
  }

  /** Same counts, same row, same pending call: nothing to prove. */
  lemma Untouched(s: State, n: State, id: int)
    requires AttemptInv(s, id) && n.settings == s.settings && n.table.lastId == s.table.lastId
    requires Calls(n.trace, id) == Calls(s.trace, id) && Faults(n.trace, id) == Faults(s.trace, id)
    requires id in n.table.rows <==> id in s.table.rows
    requires id in n.table.rows ==> n.table.rows[id].attempts == s.table.rows[id].attempts
    requires Pending(n, id) <==> Pending(s, id)
    ensures AttemptInv(n, id)
  {
  }

  lemma ArriveCounts(s: State, l: Label, id: int)
    requires Inv(s) && AttemptInv(s, id) && l.Arrive? && !s.cancelled
    ensures AttemptInv(Arriving(s, l), id)
  {
    if l.accepted {
      CountsSnoc(s.trace, Arrived(s.table.lastId + 1, l.messageId, l.route, l.payload), id);
    }
  }

  /** The goroutine for a job is the only one, so it alone decides whether a call is pending. */
  lemma PendingIsOwn(s: State, n: State, t: nat, stage: Stage, id: int)
    requires Exclusive(s) && t in s.tasks && n.tasks == Advance(s, t, stage)
    ensures s.tasks[t].job.id == id ==>
      && (Pending(n, id) <==> stage.Replied? || stage.Noted?)
      && (Pending(s, id) <==> s.tasks[t].stage.Replied? || s.tasks[t].stage.Noted?)
    ensures s.tasks[t].job.id != id ==> (Pending(n, id) <==> Pending(s, id))
  {
    assert n.tasks[t].job == s.tasks[t].job;
    if Pending(s, id) && s.tasks[t].job.id != id {
      var u :| u in s.tasks && (s.tasks[u].stage.Replied? || s.tasks[u].stage.Noted?) && s.tasks[u].job.id == id;
      assert n.tasks[u] == s.tasks[u];
    }
  }

  lemma ReplyCounts(s: State, t: nat, wire: Wire, id: int)
    requires Inv(s) && !s.cancelled && AttemptInv(s, id) && AtStage(s, t, false) && s.tasks[t].stage.Ready?
    ensures AttemptInv(Replying(s, t, wire), id)
  {
    var j := s.tasks[t].job;
    PendingIsOwn(s, Replying(s, t, wire), t, Replied(wire), id);
    CountsSnoc(s.trace, Called(j, wire, s.settings), id);
    assert Held(s.table, j, Millis(s.claimedAt));
  }

  lemma NoteCounts(s: State, t: nat, accepted: bool, id: int)
    requires Inv(s) && !s.cancelled && AttemptInv(s, id) && t in s.tasks && s.tasks[t].stage.Replied?
    ensures AttemptInv(Noting(s, t, accepted), id)
  {
    PendingIsOwn(s, Noting(s, t, accepted), t, Noted(s.tasks[t].stage.wire), id);
    Untouched(s, Noting(s, t, accepted), id);
  }

  lemma {:induction false} CountsAppend(trace: seq<Event>, more: seq<Event>, id: int)
    ensures Calls(trace + more, id) == Calls(trace, id) + Calls(more, id)
    ensures Faults(trace + more, id) == Faults(trace, id) + Faults(more, id)
    decreases |more|
  {
    if more == [] {
      assert trace + more == trace;
    } else {
      var init, last := more[..|more| - 1], more[|more| - 1];
      CountsAppend(trace, init, id);
      assert trace + more == trace + init + [last];
      CountsSnoc(trace + init, last, id);
    }
  }

  lemma WriteEventCounts(s: State, k: Task, accepted: bool, id: int)
    ensures Calls(WriteEvents(s, k, accepted), id) == 0
    ensures Faults(WriteEvents(s, k, accepted), id) == if !accepted && k.job.id == id then 1 else 0
  {
    var first := if k.stage.Ready? then [Dropped(k.job, s.settings)] else [];
    CountsAppend([], first, id);
    if k.stage.Ready? { CountsSnoc([], Dropped(k.job, s.settings), id); }
    if accepted {
      assert WriteEvents(s, k, accepted) == first;
    } else {
      CountsSnoc(first, Refused(k.job.id), id);
    }
  }

  /** The counts after the write of job `id` itself. */
  lemma WriteOwn(s: State, t: nat, now: int, accepted: bool, id: int)
    requires Sound(s) && AttemptInv(s, id) && Enabled(s, Write(t, now, accepted))
    requires s.tasks[t].job.id == id && Held(s.table, s.tasks[t].job, Millis(s.claimedAt))
    requires SoundJob(s.tasks[t].job, s.table.lastId)
    requires Pending(s, id) <==> s.tasks[t].stage.Noted?
    requires !Pending(Writing(s, t, now, accepted), id)
    ensures AttemptInv(Writing(s, t, now, accepted), id)
  {
    var k := s.tasks[t];
    WriteEventCounts(s, k, accepted, id);
    CountsAppend(s.trace, WriteEvents(s, k, accepted), id);
    OwnRow(s.settings, s.table, k, Millis(s.claimedAt), Seen(k, now, accepted));
  }

  /** What its own write does to a row: gone, or one attempt on and still below the limit. */
  lemma OwnRow(settings: Settings, q: Table, k: Task, at: int, o: Outcome)
    requires Held(q, k.job, at) && k.job.attempts >= 0
    requires k.stage.Noted? || k.job.route !in settings.routes
    ensures var r := Settle(q, k.job.id, FateOf(settings, k.job, o));
      && r.lastId == q.lastId
      && (k.job.id in r.rows ==>
        k.stage.Noted? && r.rows[k.job.id].attempts == q.rows[k.job.id].attempts + 1 < settings.delivery.maxRetries)
  {
  }

  lemma WriteOther(s: State, t: nat, now: int, accepted: bool, id: int)
    requires Sound(s) && AttemptInv(s, id) && Enabled(s, Write(t, now, accepted))
    requires SoundJob(s.tasks[t].job, s.table.lastId) && s.tasks[t].job.id != id
    requires Pending(s, id) <==> Pending(Writing(s, t, now, accepted), id)
    ensures AttemptInv(Writing(s, t, now, accepted), id)
  {
    var k := s.tasks[t];
    WriteEventCounts(s, k, accepted, id);
    CountsAppend(s.trace, WriteEvents(s, k, accepted), id);
    SettleElsewhere(s.table, k.job.id, FateOf(s.settings, k.job, Seen(k, now, accepted)), id);
    Untouched(s, Writing(s, t, now, accepted), id);
  }

  lemma WriteCounts(s: State, t: nat, now: int, accepted: bool, id: int)
    requires Inv(s) && !s.cancelled && AttemptInv(s, id) && Enabled(s, Write(t, now, accepted))
    ensures SoundJob(s.tasks[t].job, s.table.lastId)
    ensures AttemptInv(Writing(s, t, now, accepted), id)
  {
    var k := s.tasks[t];
    assert SoundJob(k.job, s.table.lastId) && Held(s.table, k.job, Millis(s.claimedAt));
    PendingIsOwn(s, Writing(s, t, now, accepted), t, Written, id);
    if k.job.id == id {
      WriteOwn(s, t, now, accepted, id);
    } else {
      WriteOther(s, t, now, accepted, id);
    }
  }

  lemma ReleaseCounts(s: State, t: nat, id: int)
    requires AttemptInv(s, id) && t in s.tasks && s.tasks[t].stage.Written?
    ensures AttemptInv(Releasing(s, t), id)
  {
    var n := Releasing(s, t);
    assert forall u :: u in s.tasks && u != t ==> u in n.tasks && n.tasks[u] == s.tasks[u];
    assert Unrecorded(n.tasks) == Unrecorded(s.tasks);
  }

  lemma SpawnCounts(s: State, id: int)
    requires Inv(s) && AttemptInv(s, id) && s.phase.Holding?
    ensures AttemptInv(Spawning(s), id)
  {
    var n := Spawning(s);
    assert s.nextTask !in s.tasks;
    assert forall u :: u in s.tasks ==> n.tasks[u] == s.tasks[u];
    assert Unrecorded(n.tasks) == Unrecorded(s.tasks);
  }

  lemma CrashCounts(s: State, id: int)
    requires AttemptInv(s, id)
    ensures AttemptInv(Restarting(s, s.settings), id)
  {
    CountsSnoc(s.trace, Crashed(Unrecorded(s.tasks)), id);
  }

  /** No cancellation, and restarts keep the settings. */
  predicate Steady(l: Label, settings: Settings) {
    !l.Cancel? && (l.Crash? ==> l.restart == settings)
  }

  lemma AttemptStep(s: State, l: Label, id: int)
    requires Inv(s) && !s.cancelled && AttemptInv(s, id) && Enabled(s, l) && Steady(l, s.settings)
    ensures AttemptInv(Next(s, l), id)
  {
    match l
    case Arrive(_, _, _, _, _) => ArriveCounts(s, l, id);
    case Spawn => SpawnCounts(s, id);
    case Reply(t, wire) => ReplyCounts(s, t, wire, id);
    case Note(t, accepted) => NoteCounts(s, t, accepted, id);
    case Write(t, now, accepted) => WriteCounts(s, t, now, accepted, id);
    case Release(t) => ReleaseCounts(s, t, id);
    case Crash(_) => CrashCounts(s, id);
    case _ =>
  }

  lemma {:induction false} AttemptRun(s: State, ls: seq<Label>, id: int)
    requires Inv(s) && !s.cancelled && AttemptInv(s, id) && Runnable(s, ls)
    requires forall i :: 0 <= i < |ls| ==> Steady(ls[i], s.settings)
    ensures AttemptInv(After(s, ls), id) && After(s, ls).settings == s.settings
    decreases ls
  {
    if ls != [] {
      InvStep(s, ls[0]);
      AttemptStep(s, ls[0], id);
      AttemptRun(Next(s, ls[0]), ls[1..], id);
    }
  }

  /**
   A job is called at most max(1, `MaxRetries`) times, plus once for each crash
   and each refused queue write that hit it; while it is queued its stored count
   never exceeds the calls made and stays below that limit.
   */
  lemma AttemptsBounded(settings: Settings, ls: seq<Label>, id: int)
    requires settings.delivery.concurrency >= 1 && Runnable(Start(settings), ls)
    requires forall i :: 0 <= i < |ls| ==> Steady(ls[i], settings)
    ensures var s := After(Start(settings), ls);
      var most := if settings.delivery.maxRetries < 1 then 1 else settings.delivery.maxRetries;
      && Calls(s.trace, id) <= most + Faults(s.trace, id)
      && (id in s.table.rows ==> s.table.rows[id].attempts <= Calls(s.trace, id) && s.table.rows[id].attempts < most)
  {
    InvStart(settings);
    InvRun(Start(settings), ls);
    AttemptRun(Start(settings), ls, id);
  }

  /** Until cancellation no step lowers the stored count of a live row. */
  lemma AttemptsNeverFall(s: State, l: Label, id: int)
    requires Inv(s) && !s.cancelled && Enabled(s, l)
    requires id in s.table.rows && id in Next(s, l).table.rows
    ensures s.table.rows[id].attempts <= Next(s, l).table.rows[id].attempts <= s.table.rows[id].attempts + 1
  {
    if l.Write? {
      var k := s.tasks[l.task];
      assert SoundJob(k.job, s.table.lastId);
      if k.job.id != id {
        SettleElsewhere(s.table, k.job.id, FateOf(s.settings, k.job, Seen(k, l.now, l.accepted)), id);
      } else {
        assert Held(s.table, k.job, Millis(s.claimedAt));
      }
    }
  }
}
