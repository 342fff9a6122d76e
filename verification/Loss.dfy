/**
 No job is lost or altered silently: in every run, with refused writes,
 cancellation, crashes and restarts under any settings.
 */
module Loss {
  import opened Backoff
  import opened Queue
  import opened Delivery
  import opened Worker
  import opened Exclusion

  /** An event that accounts for job `id` leaving the queue. */
  predicate Excuses(e: Event, id: int) {
    match e
    case Called(j, wire, under) => j.id == id && (wire.Ok() || j.attempts + 1 >= under.delivery.maxRetries)
    case Dropped(j, under) => j.id == id && j.route !in under.routes
    case _ => false
  }

  ghost predicate Excused(trace: seq<Event>, id: int) {
    exists e :: e in trace && Excuses(e, id)
  }

  /** The job is one that arrived, with the same message, route and payload. */
  predicate Genuine(trace: seq<Event>, j: Job) {
    Arrived(j.id, j.messageId, j.route, j.payload) in trace
  }

  ghost predicate GenuineJobs(trace: seq<Event>, jobs: seq<Job>) {
    forall i :: 0 <= i < |jobs| ==> Genuine(trace, jobs[i])
  }

  ghost predicate GenuineTasks(trace: seq<Event>, tasks: map<nat, Task>) {
    forall t :: t in tasks ==> Genuine(trace, tasks[t].job)
  }

  ghost predicate GenuineRows(trace: seq<Event>, q: Table) {
    forall id :: id in q.rows ==> Genuine(trace, JobOf(id, q.rows[id]))
  }

  ghost predicate GenuineCalls(trace: seq<Event>) {
    forall e :: e in trace && e.Called? ==> Genuine(trace, e.job) && e.job.route in e.under.routes
  }

  /** A reply in hand was really received, for a route that exists. */
  ghost predicate RepliesOnRecord(s: State) {
    forall t :: t in s.tasks && (s.tasks[t].stage.Replied? || s.tasks[t].stage.Noted?) ==>
      Called(s.tasks[t].job, s.tasks[t].stage.wire, s.settings) in s.trace && s.tasks[t].job.route in s.settings.routes
  }

  ghost predicate NothingLost(trace: seq<Event>, q: Table) {
    forall id :: 1 <= id <= q.lastId ==> id in q.rows || Excused(trace, id)
  }

  ghost predicate LossInv(s: State) {
    && GenuineRows(s.trace, s.table) && GenuineTasks(s.trace, s.tasks) && GenuineJobs(s.trace, Waiting(s.phase))
    && GenuineCalls(s.trace) && RepliesOnRecord(s) && NothingLost(s.trace, s.table)
  }

  lemma ArriveLoses(s: State, l: Label)
    requires Sound(s) && LossInv(s) && l.Arrive?
    ensures LossInv(Arriving(s, l))
  {
    var n := Arriving(s, l);
    if l.accepted {
      var id := s.table.lastId + 1;
      var e := Arrived(id, l.messageId, l.route, l.payload);
      assert e in n.trace;
      KeepsAccounts(s.trace, [e], s.table, s.table);
      assert forall i :: 1 <= i <= s.table.lastId && i in s.table.rows ==> i in n.table.rows;
    }
  }

  /** A longer trace excuses as much as before. */
  lemma KeepsAccounts(trace: seq<Event>, more: seq<Event>, q: Table, r: Table)
    requires NothingLost(trace, q) && r.lastId == q.lastId && q.rows.Keys <= r.rows.Keys
    ensures NothingLost(trace + more, r)
    ensures forall id :: Excused(trace, id) ==> Excused(trace + more, id)
  {
    forall id | Excused(trace, id)
      ensures Excused(trace + more, id)
    {
      var e :| e in trace && Excuses(e, id);
      assert e in trace + more;
    }
  }

  lemma ReplyLoses(s: State, t: nat, wire: Wire)
    requires LossInv(s) && AtStage(s, t, false)
    ensures LossInv(Replying(s, t, wire))
  {
    var e := Called(s.tasks[t].job, wire, s.settings);
    KeepsAccounts(s.trace, [e], s.table, s.table);
    assert e in s.trace + [e];
  }

  lemma ClaimLoses(s: State, now: int, limit: int, jobs: seq<Job>)
    requires LossInv(s) && IsClaim(s.table, Millis(now), limit, jobs)
    ensures LossInv(Claiming(s, now, jobs))
  {
    assert Waiting(Continue(jobs)) == jobs;
    forall i | 0 <= i < |jobs|
      ensures Genuine(s.trace, jobs[i])
    {
      assert Due(s.table, jobs[i].id, Millis(now));
    }
  }

  lemma SpawnLoses(s: State)
    requires Sound(s) && LossInv(s) && s.phase.Holding?
    ensures LossInv(Spawning(s))
  {
    var rest := s.phase.rest;
    assert Waiting(s.phase) == rest && Waiting(Spawning(s).phase) == rest[1..];
  }

  /** The row a queue write removes has an excuse on record by then. */
  lemma RemovalExcused(s: State, t: nat, now: int, accepted: bool)
    requires Sound(s) && LossInv(s) && Enabled(s, Write(t, now, accepted))
    ensures SoundJob(s.tasks[t].job, s.table.lastId)
    ensures !FateOf(s.settings, s.tasks[t].job, Seen(s.tasks[t], now, accepted)).Retry? ==>
      Excused(Writing(s, t, now, accepted).trace, s.tasks[t].job.id)
  {
    var k := s.tasks[t];
    assert SoundJob(k.job, s.table.lastId);
    var n := Writing(s, t, now, accepted);
    if k.stage.Ready? {
      var e := Dropped(k.job, s.settings);
      assert e in n.trace && Excuses(e, k.job.id);
    } else if !FateOf(s.settings, k.job, Seen(k, now, accepted)).Retry? {
      var e := Called(k.job, k.stage.wire, s.settings);
      assert e in n.trace && Excuses(e, k.job.id);
    }
  }

  lemma SettleRows(trace: seq<Event>, q: Table, id: int, f: Fate)
    requires GenuineRows(trace, q)
    ensures GenuineRows(trace, Settle(q, id, f))
    ensures forall i :: i in q.rows && (i != id || f.Retry?) ==> i in Settle(q, id, f).rows
    ensures Settle(q, id, f).lastId == q.lastId
  {
    var r := Settle(q, id, f);
    forall i | i in r.rows
      ensures Genuine(trace, JobOf(i, r.rows[i]))
    {
      assert Genuine(trace, JobOf(i, q.rows[i]));
    }
  }

  lemma WriteKeepsRows(s: State, t: nat, now: int, accepted: bool)
    requires Sound(s) && LossInv(s) && Enabled(s, Write(t, now, accepted))
    ensures SoundJob(s.tasks[t].job, s.table.lastId)
    ensures var n := Writing(s, t, now, accepted);
      GenuineRows(s.trace, n.table) && NothingLost(n.trace, n.table)
  {
    RemovalExcused(s, t, now, accepted);
    var k := s.tasks[t];
    var n := Writing(s, t, now, accepted);
    var more := n.trace[|s.trace|..];
    assert n.trace == s.trace + more;
    KeepsAccounts(s.trace, more, s.table, s.table);
    SettleRows(s.trace, s.table, k.job.id, FateOf(s.settings, k.job, Seen(k, now, accepted)));
  }

  /** The goroutines of `n` are among those of `s`, with no new replies. */
  ghost predicate NoNewReplies(s: State, n: State) {
    forall t :: t in n.tasks ==>
      && t in s.tasks && n.tasks[t].job == s.tasks[t].job
      && (n.tasks[t].stage.Replied? || n.tasks[t].stage.Noted? ==>
        (s.tasks[t].stage.Replied? || s.tasks[t].stage.Noted?) && n.tasks[t].stage.wire == s.tasks[t].stage.wire)
  }

  lemma QuietLoses(s: State, n: State, more: seq<Event>)
    requires LossInv(s) && NoNewReplies(s, n)
    requires n.trace == s.trace + more && n.settings == s.settings
    requires forall e :: e in more ==> !e.Called?
    requires GenuineRows(s.trace, n.table) && NothingLost(n.trace, n.table)
    requires Waiting(n.phase) == Waiting(s.phase) || Waiting(n.phase) == []
    ensures LossInv(n)
  {
    assert forall e :: e in n.trace && e.Called? ==> e in s.trace;
    assert forall e :: e in s.trace ==> e in n.trace;
  }

  lemma WriteLoses(s: State, t: nat, now: int, accepted: bool)
    requires Sound(s) && LossInv(s) && Enabled(s, Write(t, now, accepted))
    ensures SoundJob(s.tasks[t].job, s.table.lastId)
    ensures LossInv(Writing(s, t, now, accepted))
  {
    WriteKeepsRows(s, t, now, accepted);
    var n := Writing(s, t, now, accepted);
    var more := n.trace[|s.trace|..];
    assert n.trace == s.trace + more;
    assert NoNewReplies(s, n);
    QuietLoses(s, n, more);
  }

  lemma NoteLoses(s: State, t: nat, accepted: bool)
    requires LossInv(s) && t in s.tasks && s.tasks[t].stage.Replied?
    ensures LossInv(Noting(s, t, accepted))
  {
    var n := Noting(s, t, accepted);
    assert n.trace == s.trace + [];
    assert NoNewReplies(s, n);
    QuietLoses(s, n, []);
  }

  lemma LoopLoses(s: State, n: State)
    requires LossInv(s) && n.trace == s.trace && n.settings == s.settings && n.table == s.table
    requires n.tasks.Keys <= s.tasks.Keys && forall t :: t in n.tasks ==> n.tasks[t] == s.tasks[t]
    requires Waiting(n.phase) == Waiting(s.phase) || Waiting(n.phase) == []
    ensures LossInv(n)
  {
    assert n.trace == s.trace + [];
    assert NoNewReplies(s, n);
    QuietLoses(s, n, []);
  }

  lemma CrashLoses(s: State, restart: Settings)
    requires LossInv(s)
    ensures LossInv(Restarting(s, restart))
  {
    var e := Crashed(Unrecorded(s.tasks));
    KeepsAccounts(s.trace, [e], s.table, s.table);
    assert forall e' :: e' in s.trace + [e] && e'.Called? ==> e' in s.trace;
  }

  lemma LossStep(s: State, l: Label)
    requires Sound(s) && LossInv(s) && Enabled(s, l)
    ensures LossInv(Next(s, l))
  {
    match l
    case Arrive(_, _, _, _, _) => ArriveLoses(s, l);
    case Claim(now, jobs) => ClaimLoses(s, now, 4 * Cap(s), jobs);
    case Spawn => SpawnLoses(s);
    case Reply(t, wire) => ReplyLoses(s, t, wire);
    case Write(t, now, accepted) => WriteLoses(s, t, now, accepted);
    case Crash(restart) => CrashLoses(s, restart);
    case Note(t, accepted) => NoteLoses(s, t, accepted);
    case _ => LoopLoses(s, Next(s, l));
  }

  lemma {:induction false} LossRun(s: State, ls: seq<Label>)
    requires Sound(s) && LossInv(s) && Runnable(s, ls)
    ensures LossInv(After(s, ls))
    decreases ls
  {
    if ls != [] {
      SoundStep(s, ls[0]);
      LossStep(s, ls[0]);
      LossRun(Next(s, ls[0]), ls[1..]);
    }
  }

  /**
   Every job ever inserted is still queued, or was accepted with a 2xx, or
   failed an attempt that was its last under the settings then running, or
   named a route those settings did not have.
   */
  lemma NoSilentLoss(settings: Settings, ls: seq<Label>, id: int)
    requires Runnable(Start(settings), ls)
    ensures var s := After(Start(settings), ls);
      1 <= id <= s.table.lastId ==> id in s.table.rows || exists e :: e in s.trace && Excuses(e, id)
  {
    LossRun(Start(settings), ls);
  }

  /** Every call carries the payload of a job that arrived, to the route it arrived for. */
  lemma CallsAreGenuine(settings: Settings, ls: seq<Label>, e: Event)
    requires Runnable(Start(settings), ls) && e in After(Start(settings), ls).trace && e.Called?
    ensures Arrived(e.job.id, e.job.messageId, e.job.route, e.job.payload) in After(Start(settings), ls).trace
    ensures e.job.route in e.under.routes
  {
    LossRun(Start(settings), ls);
  }
}
