/**
 What becomes of a job once it has been answered: gone for good after a 2xx,
 gone after its last attempt, and otherwise kept for exactly one later time.
 */
module Settlement {
  import opened Backoff
  import opened Queue
  import opened Delivery
  import opened Worker
  import opened Exclusion
  import opened Loss
  import opened Timing

  /** The queue write of a goroutine, by its reply. */
  lemma WriteExactly(s: State, t: nat, now: int, accepted: bool)
    requires Sound(s) && t in s.tasks && s.tasks[t].stage.Noted? && s.tasks[t].job.route in s.settings.routes
    ensures SoundJob(s.tasks[t].job, s.table.lastId)
    ensures
      var j, w, q, r := s.tasks[t].job, s.tasks[t].stage.wire, s.table, Writing(s, t, now, accepted).table;
      && (!accepted ==> r == q)
      && (accepted && (Answered2xx(w) || j.attempts + 1 >= s.settings.delivery.maxRetries) ==> j.id !in r.rows)
      && (accepted && !Answered2xx(w) && j.attempts + 1 < s.settings.delivery.maxRetries ==>
        RetriedAs(q, r, j.id, j.attempts + 1, Millis(now + Delay(s.settings.delivery.retryBackoff, j.attempts + 1))))
      && r.lastId == q.lastId && OthersKept(q, r, j.id)
  {
    assert SoundJob(s.tasks[t].job, s.table.lastId);
  }

  /** A dropped job goes, and nothing else changes. */
  lemma DropExactly(s: State, t: nat, now: int, accepted: bool)
    requires Sound(s) && t in s.tasks && s.tasks[t].stage.Ready? && s.tasks[t].job.route !in s.settings.routes
    ensures SoundJob(s.tasks[t].job, s.table.lastId)
    ensures
      var j, q, r := s.tasks[t].job, s.table, Writing(s, t, now, accepted).table;
      && (if accepted then j.id !in r.rows else r == q)
      && r.lastId == q.lastId && OthersKept(q, r, j.id)
  {
    assert SoundJob(s.tasks[t].job, s.table.lastId);
  }

  /** The log entry of a goroutine: its job, its attempt number, and what came back. */
  lemma NoteExactly(s: State, t: nat, accepted: bool)
    requires t in s.tasks && s.tasks[t].stage.Replied?
    ensures
      var j, w := s.tasks[t].job, s.tasks[t].stage.wire;
      Noting(s, t, accepted).log ==
        if accepted && s.settings.logContent
        then s.log + multiset{Record(j.messageId, j.route, j.attempts + 1, if w.Status? then w.code else 0, Answered2xx(w), w.Error())}
        else s.log
  {
  }

  /**
   A failed attempt that is not the last leaves the row due exactly one backoff
   after the clock reading: neither early nor late, and otherwise unchanged.
   */
  lemma RetryExactly(s: State, t: nat, now: int, baseMillis: nat)
    requires Sound(s) && t in s.tasks && s.tasks[t].stage.Noted? && s.tasks[t].job.route in s.settings.routes
    requires WholeMillis(s.settings, baseMillis) && s.tasks[t].job.id in s.table.rows
    requires !Answered2xx(s.tasks[t].stage.wire) && s.tasks[t].job.attempts + 1 < s.settings.delivery.maxRetries
    ensures SoundJob(s.tasks[t].job, s.table.lastId)
    ensures
      var j, r := s.tasks[t].job, Writing(s, t, now, true).table;
      && j.id in r.rows
      && r.rows[j.id] == s.table.rows[j.id].(
        attempts := j.attempts + 1, nextAttemptAt := Millis(now) + baseMillis * Pow2(j.attempts + 1 - 1))
  {
    WriteExactly(s, t, now, true);
    NextTryMillis(s.settings, baseMillis, s.tasks[t].job.attempts + 1, now);
  }

  // --- gone for good ---

  /** Job `id` has left the queue and nobody is still to call for it. */
  ghost predicate Gone(s: State, id: int) {
    && id <= s.table.lastId && id !in s.table.rows && !Taken(Waiting(s.phase), id)
    && forall t :: t in s.tasks && s.tasks[t].job.id == id ==> !s.tasks[t].stage.Ready?
  }

  /** The later trace adds no attempt for this job. */
  ghost predicate NoMoreCalls(before: seq<Event>, after: seq<Event>, id: int) {
    && |before| <= |after| && after[..|before|] == before
    && forall i :: |before| <= i < |after| && after[i].Called? ==> after[i].job.id != id
  }

  lemma GoneClaim(s: State, now: int, limit: int, jobs: seq<Job>, id: int)
    requires Gone(s, id) && IsClaim(s.table, Millis(now), limit, jobs)
    ensures Gone(Claiming(s, now, jobs), id)
  {
    assert Waiting(Continue(jobs)) == jobs;
    assert forall i :: 0 <= i < |jobs| ==> Due(s.table, jobs[i].id, Millis(now));
  }

  lemma GoneSpawn(s: State, id: int)
    requires Gone(s, id) && s.phase.Holding? && s.phase.rest != []
    ensures Gone(Spawning(s), id)
  {
    var rest := s.phase.rest;
    assert Waiting(s.phase) == rest && Waiting(Spawning(s).phase) == rest[1..];
    assert forall i :: 0 <= i < |rest| ==> rest[i].id != id;
  }

  lemma GoneWrite(s: State, t: nat, now: int, accepted: bool, id: int)
    requires Sound(s) && Gone(s, id) && Enabled(s, Write(t, now, accepted))
    ensures SoundJob(s.tasks[t].job, s.table.lastId)
    ensures Gone(Writing(s, t, now, accepted), id)
    ensures NoMoreCalls(s.trace, Writing(s, t, now, accepted).trace, id)
  {
    var k := s.tasks[t];
    assert SoundJob(k.job, s.table.lastId);
    if k.job.id != id {
      SettleElsewhere(s.table, k.job.id, FateOf(s.settings, k.job, Seen(k, now, accepted)), id);
    }
  }

  lemma GoneStep(s: State, l: Label, id: int)
    requires Sound(s) && Gone(s, id) && Enabled(s, l)
    ensures Gone(Next(s, l), id) && NoMoreCalls(s.trace, Next(s, l).trace, id)
  {
    match l
    case Claim(now, jobs) => GoneClaim(s, now, 4 * Cap(s), jobs, id);
    case Spawn => GoneSpawn(s, id);
    case Write(t, now, accepted) => GoneWrite(s, t, now, accepted, id);
    case _ =>
  }

  lemma NoMoreCallsAfter(a: seq<Event>, b: seq<Event>, c: seq<Event>, id: int)
    requires NoMoreCalls(a, b, id) && NoMoreCalls(b, c, id)
    ensures NoMoreCalls(a, c, id)
  {
    assert forall i :: 0 <= i < |b| ==> c[i] == c[..|b|][i] == b[i];
    assert c[..|a|] == b[..|a|];
  }

  lemma {:induction false} GoneRun(s: State, ls: seq<Label>, id: int)
    requires Sound(s) && Gone(s, id) && Runnable(s, ls)
    ensures Gone(After(s, ls), id) && NoMoreCalls(s.trace, After(s, ls).trace, id)
    decreases ls
  {
    if ls != [] {
      var n := Next(s, ls[0]);
      SoundStep(s, ls[0]);
      GoneStep(s, ls[0], id);
      GoneRun(n, ls[1..], id);
      NoMoreCallsAfter(s.trace, n.trace, After(s, ls).trace, id);
    }
  }

  /** No other goroutine is still to call for the job of `t`, and it does not wait to be started again. */
  ghost predicate Sole(s: State, t: nat)
    requires t in s.tasks
  {
    && !Taken(Waiting(s.phase), s.tasks[t].job.id)
    && forall u :: u in s.tasks && u != t && s.tasks[u].job.id == s.tasks[t].job.id ==> !s.tasks[u].stage.Ready?
  }

  /** Without that, the job can be attempted again although it was delivered and its row is gone. */
  lemma NotSoleCallsAgain(s: State, t: nat, u: nat, now: int, wire: Wire)
    requires Sound(s) && Enabled(s, Write(t, now, true)) && u in s.tasks && u != t
    requires s.tasks[u].job.id == s.tasks[t].job.id && s.tasks[u].stage.Ready? && s.tasks[u].job.route in s.settings.routes
    ensures
      var n := Next(s, Write(t, now, true));
      Sound(n) && Enabled(n, Reply(u, wire)) && !NoMoreCalls(n.trace, Next(n, Reply(u, wire)).trace, s.tasks[t].job.id)
  {
    SoundStep(s, Write(t, now, true));
    var n := Next(s, Write(t, now, true));
    var after := Next(n, Reply(u, wire)).trace;
    assert n.tasks[u] == s.tasks[u];
    assert after[|n.trace|] == Called(s.tasks[u].job, wire, n.settings);
  }

  /** An accepted write after a 2xx, by the only goroutine still to act on the job, settles it for good. */
  lemma {:induction false} SoleIsSettled(s: State, t: nat, now: int, later: seq<Label>)
    requires Sound(s) && LossInv(s) && Runnable(s, [Write(t, now, true)] + later)
    requires t in s.tasks && s.tasks[t].stage.Noted? && Answered2xx(s.tasks[t].stage.wire) && Sole(s, t)
    ensures
      var id, end := s.tasks[t].job.id, After(s, [Write(t, now, true)] + later);
      id !in end.table.rows && NoMoreCalls(s.trace, end.trace, id)
  {
    var l := Write(t, now, true);
    assert ([l] + later)[0] == l && ([l] + later)[1..] == later;
    var id, n := s.tasks[t].job.id, Next(s, l);
    SoundStep(s, l);
    WriteExactly(s, t, now, true);
    assert Gone(n, id) && NoMoreCalls(s.trace, n.trace, id);
    GoneRun(n, later, id);
    NoMoreCallsAfter(s.trace, n.trace, After(n, later).trace, id);
  }

  /**
   After any run that has left no drain behind: once the job of a goroutine that was
   answered with a status from 200 to 299 has its write accepted, the job is never
   queued and never attempted again, whatever comes after, cancellation, crashes
   and restarts under other settings included.
   */
  lemma {:induction false} DeliveredForGood(settings: Settings, ls: seq<Label>, t: nat, code: int, now: int, later: seq<Label>)
    requires settings.delivery.concurrency >= 1 && Runnable(Start(settings), ls) && Tidy(Start(settings), ls, true)
    requires t in After(Start(settings), ls).tasks
    requires After(Start(settings), ls).tasks[t].stage == Noted(Status(code)) && 200 <= code < 300
    requires Runnable(After(Start(settings), ls), [Write(t, now, true)] + later)
    ensures
      var s := After(Start(settings), ls);
      var id, end := s.tasks[t].job.id, After(s, [Write(t, now, true)] + later);
      id !in end.table.rows && NoMoreCalls(s.trace, end.trace, id)
  {
    var s := After(Start(settings), ls);
    InvStart(settings);
    TidyRun(Start(settings), ls, true);
    LossRun(Start(settings), ls);
    assert forall i :: 0 <= i < |Waiting(s.phase)| ==> s.tasks[t].job.id != Waiting(s.phase)[i].id;
    SoleIsSettled(s, t, now, later);
  }

  // --- what is durable ---

  /** A crash loses what is in flight and nothing that was written. */
  lemma CrashKeeps(s: State, restart: Settings)
    ensures
      var n := Restarting(s, restart);
      && n.table == s.table && n.log == s.log && s.trace <= n.trace
      && n.settings == restart && n.tasks == map[] && n.phase.Idle? && !n.cancelled
  {
  }

  lemma LogStep(s: State, l: Label)
    requires Sound(s) && Enabled(s, l)
    ensures s.log <= Next(s, l).log && (!s.settings.logContent ==> Next(s, l).log == s.log)
    ensures s.table.lastId <= Next(s, l).table.lastId
  {
    if l.Write? {
      assert SoundJob(s.tasks[l.task].job, s.table.lastId);
    }
  }

  /** No delivery record is ever lost and no id is ever given twice, whatever happens. */
  lemma {:induction false} RecordsStay(s: State, ls: seq<Label>)
    requires Sound(s) && Runnable(s, ls)
    ensures s.log <= After(s, ls).log && s.table.lastId <= After(s, ls).table.lastId
    decreases ls
  {
    if ls != [] {
      SoundStep(s, ls[0]);
      LogStep(s, ls[0]);
      RecordsStay(Next(s, ls[0]), ls[1..]);
    }
  }
}
