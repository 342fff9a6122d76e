/**
 Interleaving does not matter: whatever order a drain's goroutines take their
 steps in, mixed with arrivals, the queue and the delivery log end as if the
 claimed jobs had been handled one after another with the same outcomes.
 */
module Serial {
  import opened Wrappers
  import opened Backoff
  import opened Queue
  import opened Delivery
  import opened Worker
  import opened Exclusion
  import opened Progress

  function Met(results: map<int, Outcome>, id: int): Outcome {
    if id in results then results[id] else NO_OUTCOME
  }

  /** The queue after handling `jobs` in turn. */
  function HandleAll(settings: Settings, q: Table, jobs: seq<Job>, results: map<int, Outcome>): Table
    requires forall i :: 0 <= i < |jobs| ==> jobs[i].attempts >= 0
    decreases jobs
  {
    if jobs == [] then q
    else HandleAll(settings, Handled(settings, q, jobs[0], Met(results, jobs[0].id)), jobs[1..], results)
  }

  /** The log entries of `jobs`. */
  function LogAll(settings: Settings, jobs: seq<Job>, results: map<int, Outcome>): multiset<Record> {
    if jobs == [] then multiset{}
    else Logged(settings, jobs[0], Met(results, jobs[0].id)) + LogAll(settings, jobs[1..], results)
  }

  /** The queue after the accepted arrivals among `ls`. */
  function InsertAll(q: Table, ls: seq<Label>): Table
    decreases ls
  {
    if ls == [] then q
    else InsertAll(if ls[0].Arrive? && ls[0].accepted
      then Inserted(q, ls[0].messageId, ls[0].route, ls[0].payload, Millis(ls[0].now)) else q, ls[1..])
  }

  function At(q: Table, id: int): Option<Row> {
    if id in q.rows then Some(q.rows[id]) else None
  }

  lemma TablesEqual(q: Table, r: Table)
    requires q.lastId == r.lastId && forall id :: At(q, id) == At(r, id)
    ensures q == r
  {
    forall id
      ensures id in q.rows <==> id in r.rows
      ensures id in q.rows ==> q.rows[id] == r.rows[id]
    {
      assert At(q, id) == At(r, id);
    }
    assert q.rows == r.rows;
  }

  // --- the serial side, row by row ---

  lemma HandledAt(settings: Settings, q: Table, r: Table, j: Job, o: Outcome, id: int)
    requires j.attempts >= 0 && At(q, j.id) == At(r, j.id)
    ensures Handled(settings, q, j, o).lastId == q.lastId
    ensures j.id != id ==> At(Handled(settings, q, j, o), id) == At(q, id)
    ensures At(Handled(settings, q, j, o), j.id) == At(Handled(settings, r, j, o), j.id)
  {
    if j.id != id {
      SettleElsewhere(q, j.id, FateOf(settings, j, o), id);
    }
  }

  ghost predicate Serially(settings: Settings, q: Table, jobs: seq<Job>, results: map<int, Outcome>, id: int, row: Option<Row>)
    requires forall i :: 0 <= i < |jobs| ==> jobs[i].attempts >= 0
  {
    && (forall i :: 0 <= i < |jobs| && jobs[i].id == id ==> row == At(Handled(settings, q, jobs[i], Met(results, id)), id))
    && (!Taken(jobs, id) ==> row == At(q, id))
  }

  lemma {:induction false} HandleAllAt(settings: Settings, q: Table, jobs: seq<Job>, results: map<int, Outcome>, id: int)
    requires DistinctJobs(jobs) && forall i :: 0 <= i < |jobs| ==> jobs[i].attempts >= 0
    ensures Serially(settings, q, jobs, results, id, At(HandleAll(settings, q, jobs, results), id))
    ensures HandleAll(settings, q, jobs, results).lastId == q.lastId
    decreases jobs
  {
    if jobs != [] {
      var j, rest := jobs[0], jobs[1..];
      var o := Met(results, j.id);
      var q' := Handled(settings, q, j, o);
      assert forall i :: 0 <= i < |rest| ==> rest[i] == jobs[i + 1];
      HandleAllAt(settings, q', rest, results, id);
      HandledAt(settings, q, q, j, o, id);
      if Taken(rest, id) {
        var k :| 0 <= k < |rest| && rest[k].id == id;
        assert jobs[k + 1].id == id && jobs[0].id != id;
        HandledAt(settings, q', q, rest[k], Met(results, id), id);
      } else if j.id == id {
        assert At(HandleAll(settings, q, jobs, results), id) == At(q', id);
        assert forall i :: 0 < i < |jobs| ==> jobs[i].id != id;
      } else {
        assert forall i :: 0 <= i < |jobs| && jobs[i].id == id ==> i > 0 && rest[i - 1].id == id;
      }
      assert Taken(rest, id) ==> Taken(jobs, id);
      assert j.id == id ==> Taken(jobs, id);
    }
  }

  lemma Regroup<T>(x: multiset<T>, y: multiset<T>, z: multiset<T>)
    ensures (x + y) + z == x + (y + z)
    ensures multiset{} + x == x && x + y == y + x
  {
  }

  /** One job's log entry changes, the others' stay. */
  lemma {:induction false} LogAllChange(settings: Settings, jobs: seq<Job>, i: nat, results: map<int, Outcome>, o: Outcome)
    requires DistinctJobs(jobs) && i < |jobs|
    requires Logged(settings, jobs[i], Met(results, jobs[i].id)) == multiset{}
    ensures LogAll(settings, jobs, results[jobs[i].id := o]) == LogAll(settings, jobs, results) + Logged(settings, jobs[i], o)
    decreases jobs
  {
    var rest := jobs[1..];
    assert forall k :: 0 <= k < |rest| ==> rest[k] == jobs[k + 1];
    if i == 0 {
      LogAllElsewhere(settings, rest, jobs[0].id, results, o);
      LogHead(settings, jobs, results, o);
    } else {
      LogAllChange(settings, rest, i - 1, results, o);
      assert jobs[0].id != jobs[i].id;
      LogTail(settings, jobs, results, results[jobs[i].id := o], Logged(settings, jobs[i], o));
    }
  }

  lemma LogHead(settings: Settings, jobs: seq<Job>, results: map<int, Outcome>, o: Outcome)
    requires jobs != [] && Logged(settings, jobs[0], Met(results, jobs[0].id)) == multiset{}
    requires LogAll(settings, jobs[1..], results[jobs[0].id := o]) == LogAll(settings, jobs[1..], results)
    ensures LogAll(settings, jobs, results[jobs[0].id := o]) == LogAll(settings, jobs, results) + Logged(settings, jobs[0], o)
  {
    Regroup(LogAll(settings, jobs[1..], results), Logged(settings, jobs[0], o), multiset{});
  }

  lemma LogTail(settings: Settings, jobs: seq<Job>, results: map<int, Outcome>, changed: map<int, Outcome>, more: multiset<Record>)
    requires jobs != [] && Met(changed, jobs[0].id) == Met(results, jobs[0].id)
    requires LogAll(settings, jobs[1..], changed) == LogAll(settings, jobs[1..], results) + more
    ensures LogAll(settings, jobs, changed) == LogAll(settings, jobs, results) + more
  {
    Regroup(Logged(settings, jobs[0], Met(results, jobs[0].id)), LogAll(settings, jobs[1..], results), more);
  }

  lemma {:induction false} LogAllElsewhere(settings: Settings, jobs: seq<Job>, id: int, results: map<int, Outcome>, o: Outcome)
    requires forall k :: 0 <= k < |jobs| ==> jobs[k].id != id
    ensures LogAll(settings, jobs, results[id := o]) == LogAll(settings, jobs, results)
    decreases jobs
  {
    if jobs != [] {
      LogAllElsewhere(settings, jobs[1..], id, results, o);
    }
  }

  /** An outcome that logs the same leaves the log as it is. */
  lemma {:induction false} LogAllSame(settings: Settings, jobs: seq<Job>, id: int, results: map<int, Outcome>, o: Outcome)
    requires forall k :: 0 <= k < |jobs| && jobs[k].id == id ==>
      Logged(settings, jobs[k], o) == Logged(settings, jobs[k], Met(results, id))
    ensures LogAll(settings, jobs, results[id := o]) == LogAll(settings, jobs, results)
    decreases jobs
  {
    if jobs != [] {
      LogAllSame(settings, jobs[1..], id, results, o);
    }
  }

  // --- the interleaved side ---

  /** Recorded results agree with how far each goroutine has come. */
  ghost predicate ResultsInv(s: State) {
    && (forall t :: t in s.tasks ==>
      var k := s.tasks[t];
      match k.stage
      case Ready => k.job.id !in s.results
      case Replied(w) => k.job.id in s.results && s.results[k.job.id].wire == w && !s.results[k.job.id].logged && k.job.route in s.settings.routes
      case Noted(w) => k.job.id in s.results && s.results[k.job.id].wire == w && k.job.route in s.settings.routes
      case Written => true)
    && (forall i :: 0 <= i < |Waiting(s.phase)| ==> Waiting(s.phase)[i].id !in s.results)
  }

  ghost predicate FromBatch(s: State, jobs: seq<Job>) {
    && (forall t :: t in s.tasks ==> s.tasks[t].job in jobs)
    && (forall i :: 0 <= i < |Waiting(s.phase)| ==> Waiting(s.phase)[i] in jobs)
  }

  /** Still to be started, or started and not yet written. */
  ghost predicate Unfinished(s: State, id: int) {
    Taken(Waiting(s.phase), id) || exists t :: t in s.tasks && s.tasks[t].job.id == id && !s.tasks[t].stage.Written?
  }

  /** Row `id` is untouched while its job is unfinished, and as handled alone afterwards. */
  ghost predicate RowInv(b: State, jobs: seq<Job>, s: State, id: int)
    requires forall i :: 0 <= i < |jobs| ==> jobs[i].attempts >= 0
  {
    if Unfinished(s, id) then At(s.table, id) == At(b.table, id)
    else Serially(b.settings, b.table, jobs, s.results, id, At(s.table, id))
  }

  ghost predicate RowsInv(b: State, jobs: seq<Job>, s: State)
    requires forall i :: 0 <= i < |jobs| ==> jobs[i].attempts >= 0
  {
    forall id :: id <= b.table.lastId ==> RowInv(b, jobs, s, id)
  }

  /** `s` is reached midway through the drain that claimed `jobs` in `b`. */
  ghost predicate Midway(b: State, jobs: seq<Job>, s: State) {
    && Inv(s) && !s.cancelled && s.settings == b.settings && s.drain == b.drain
    && DistinctJobs(jobs) && SoundJobs(jobs, b.table.lastId) && b.table.lastId <= s.table.lastId
    && ResultsInv(s) && FromBatch(s, jobs) && RowsInv(b, jobs, s)
    && s.log == b.log + s.inline + LogAll(b.settings, jobs, s.results)
  }

  lemma IndexOfJob(jobs: seq<Job>, j: Job) returns (i: nat)
    requires j in jobs
    ensures i < |jobs| && jobs[i] == j
  {
    i :| 0 <= i < |jobs| && jobs[i] == j;
  }

  /** Only the goroutine's own row is at stake when it moves. */
  lemma UnfinishedElsewhere(s: State, n: State, t: nat, stage: Stage, id: int)
    requires Exclusive(s) && t in s.tasks && n.tasks == Advance(s, t, stage) && n.phase == s.phase
    ensures s.tasks[t].job.id != id ==> (Unfinished(n, id) <==> Unfinished(s, id))
    ensures s.tasks[t].job.id == id ==> (Unfinished(n, id) <==> !stage.Written?)
    ensures s.tasks[t].job.id == id ==> (Unfinished(s, id) <==> !s.tasks[t].stage.Written?)
  {
    assert n.tasks[t].job == s.tasks[t].job && n.tasks[t].stage == stage;
    assert forall u :: u in s.tasks && u != t ==> n.tasks[u] == s.tasks[u];
    if Unfinished(s, id) && !Taken(Waiting(s.phase), id) {
      var u :| u in s.tasks && s.tasks[u].job.id == id && !s.tasks[u].stage.Written?;
      assert n.tasks[u] == s.tasks[u] || u == t;
    }
    if Unfinished(n, id) && !Taken(Waiting(n.phase), id) {
      var u :| u in n.tasks && n.tasks[u].job.id == id && !n.tasks[u].stage.Written?;
      assert n.tasks[u] == s.tasks[u] || u == t;
    }
  }

  /** Results of another job do not matter to a row. */
  lemma SeriallyElsewhere(settings: Settings, q: Table, jobs: seq<Job>, results: map<int, Outcome>, other: int, o: Outcome, id: int, row: Option<Row>)
    requires forall i :: 0 <= i < |jobs| ==> jobs[i].attempts >= 0
    requires id != other && Serially(settings, q, jobs, results, id, row)
    ensures Serially(settings, q, jobs, results[other := o], id, row)
  {
  }

  /** Rows after a goroutine has moved without writing. */
  lemma RowsUnwritten(b: State, jobs: seq<Job>, s: State, n: State, t: nat, stage: Stage, o: Outcome)
    requires Midway(b, jobs, s) && t in s.tasks && n.tasks == Advance(s, t, stage) && n.phase == s.phase && n.table == s.table
    requires !stage.Written? && !s.tasks[t].stage.Written? && n.results == s.results[s.tasks[t].job.id := o]
    ensures RowsInv(b, jobs, n)
  {
    forall id | id <= b.table.lastId
      ensures RowInv(b, jobs, n, id)
    {
      assert RowInv(b, jobs, s, id);
      UnfinishedElsewhere(s, n, t, stage, id);
      if s.tasks[t].job.id != id && !Unfinished(s, id) {
        SeriallyElsewhere(b.settings, b.table, jobs, s.results, s.tasks[t].job.id, o, id, At(s.table, id));
      }
    }
  }

  lemma ReplyMidway(b: State, jobs: seq<Job>, s: State, t: nat, wire: Wire)
    requires Midway(b, jobs, s) && Enabled(s, Reply(t, wire))
    ensures Midway(b, jobs, Replying(s, t, wire))
  {
    var n, j := Replying(s, t, wire), s.tasks[t].job;
    InvStep(s, Reply(t, wire));
    var o := Known(s, j.id).(wire := wire);
    RowsUnwritten(b, jobs, s, n, t, Replied(wire), o);
    LogAllSame(b.settings, jobs, j.id, s.results, o);
    ReplyResults(s, t, wire, jobs);
  }

  lemma ReplyResults(s: State, t: nat, wire: Wire, jobs: seq<Job>)
    requires Exclusive(s) && ResultsInv(s) && FromBatch(s, jobs) && AtStage(s, t, false) && s.tasks[t].stage.Ready?
    ensures ResultsInv(Replying(s, t, wire)) && FromBatch(Replying(s, t, wire), jobs)
  {
  }

  lemma NoteResults(s: State, t: nat, accepted: bool, jobs: seq<Job>)
    requires Exclusive(s) && ResultsInv(s) && FromBatch(s, jobs) && t in s.tasks && s.tasks[t].stage.Replied?
    ensures ResultsInv(Noting(s, t, accepted)) && FromBatch(Noting(s, t, accepted), jobs)
  {
  }

  lemma NoteLog(b: State, jobs: seq<Job>, s: State, t: nat, accepted: bool)
    requires Midway(b, jobs, s) && t in s.tasks && s.tasks[t].stage.Replied?
    ensures var n := Noting(s, t, accepted); n.log == b.log + n.inline + LogAll(b.settings, jobs, n.results)
  {
    var k := s.tasks[t];
    var o := Known(s, k.job.id).(logged := accepted);
    var i := IndexOfJob(jobs, k.job);
    LogAllChange(b.settings, jobs, i, s.results, o);
    var entry := Logged(b.settings, k.job, o);
    assert Noting(s, t, accepted).log == s.log + entry;
    Regroup(b.log + s.inline, LogAll(b.settings, jobs, s.results), entry);
  }

  lemma NoteMidway(b: State, jobs: seq<Job>, s: State, t: nat, accepted: bool)
    requires Midway(b, jobs, s) && Enabled(s, Note(t, accepted))
    ensures Midway(b, jobs, Noting(s, t, accepted))
  {
    var n, k := Noting(s, t, accepted), s.tasks[t];
    InvStep(s, Note(t, accepted));
    RowsUnwritten(b, jobs, s, n, t, Noted(k.stage.wire), Known(s, k.job.id).(logged := accepted));
    NoteLog(b, jobs, s, t, accepted);
    NoteResults(s, t, accepted, jobs);
  }

  /** What a goroutine writes is what handling its job with the recorded outcome writes. */
  lemma WriteIsHandled(s: State, t: nat, now: int, accepted: bool)
    requires Sound(s) && ResultsInv(s) && Enabled(s, Write(t, now, accepted))
    ensures SoundJob(s.tasks[t].job, s.table.lastId)
    ensures Writing(s, t, now, accepted).table == Handled(s.settings, s.table, s.tasks[t].job, Final(s, t, now, accepted))
  {
    assert SoundJob(s.tasks[t].job, s.table.lastId);
  }

  lemma WriteRow(b: State, jobs: seq<Job>, s: State, t: nat, now: int, accepted: bool, id: int)
    requires Midway(b, jobs, s) && Enabled(s, Write(t, now, accepted)) && id <= b.table.lastId
    requires SoundJob(s.tasks[t].job, s.table.lastId)
    ensures RowInv(b, jobs, Writing(s, t, now, accepted), id)
  {
    var n, j, o := Writing(s, t, now, accepted), s.tasks[t].job, Final(s, t, now, accepted);
    WriteIsHandled(s, t, now, accepted);
    UnfinishedElsewhere(s, n, t, Written, id);
    assert RowInv(b, jobs, s, id);
    if j.id == id {
      HandledAt(s.settings, s.table, b.table, j, o, id);
      var k := IndexOfJob(jobs, j);
      assert forall i :: 0 <= i < |jobs| && jobs[i].id == id ==> i == k;
      assert Taken(jobs, id);
    } else {
      HandledAt(s.settings, s.table, s.table, j, o, id);
      if !Unfinished(s, id) {
        SeriallyElsewhere(b.settings, b.table, jobs, s.results, j.id, o, id, At(s.table, id));
      }
    }
  }

  lemma WriteMidway(b: State, jobs: seq<Job>, s: State, t: nat, now: int, accepted: bool)
    requires Midway(b, jobs, s) && Enabled(s, Write(t, now, accepted))
    ensures SoundJob(s.tasks[t].job, s.table.lastId)
    ensures Midway(b, jobs, Writing(s, t, now, accepted))
  {
    assert SoundJob(s.tasks[t].job, s.table.lastId);
    var n, j := Writing(s, t, now, accepted), s.tasks[t].job;
    InvStep(s, Write(t, now, accepted));
    forall id | id <= b.table.lastId
      ensures RowInv(b, jobs, n, id)
    {
      WriteRow(b, jobs, s, t, now, accepted, id);
    }
    LogAllSame(b.settings, jobs, j.id, s.results, Final(s, t, now, accepted));
    WriteIsHandled(s, t, now, accepted);
    HandledAt(s.settings, s.table, s.table, j, Final(s, t, now, accepted), 0);
    WriteResults(s, t, now, accepted, jobs);
  }

  lemma WriteResults(s: State, t: nat, now: int, accepted: bool, jobs: seq<Job>)
    requires Exclusive(s) && ResultsInv(s) && FromBatch(s, jobs) && t in s.tasks && s.tasks[t].job.attempts >= 0
    ensures ResultsInv(Writing(s, t, now, accepted)) && FromBatch(Writing(s, t, now, accepted), jobs)
  {
  }

  /** Steps that move jobs between queue and goroutines without writing anything. */
  lemma QuietMidway(b: State, jobs: seq<Job>, s: State, n: State)
    requires Midway(b, jobs, s) && Inv(n) && !n.cancelled
    requires n.settings == s.settings && n.drain == s.drain && n.table == s.table && n.log == s.log && n.inline == s.inline && n.results == s.results
    requires ResultsInv(n) && FromBatch(n, jobs)
    requires forall id :: Unfinished(n, id) <==> Unfinished(s, id)
    ensures Midway(b, jobs, n)
  {
    forall id | id <= b.table.lastId
      ensures RowInv(b, jobs, n, id)
    {
      assert RowInv(b, jobs, s, id);
    }
  }

  lemma SpawnMidway(b: State, jobs: seq<Job>, s: State)
    requires Midway(b, jobs, s) && s.phase.Holding?
    ensures Midway(b, jobs, Spawning(s))
  {
    var n := Spawning(s);
    InvStep(s, Spawn);
    assert s.nextTask !in s.tasks;
    forall id
      ensures Unfinished(n, id) <==> Unfinished(s, id)
    {
      SpawnUnfinished(s, id);
    }
    SpawnResults(s, jobs);
    QuietMidway(b, jobs, s, n);
  }

  lemma SpawnResults(s: State, jobs: seq<Job>)
    requires ResultsInv(s) && FromBatch(s, jobs) && s.phase.Holding? && s.phase.rest != [] && s.nextTask !in s.tasks
    ensures ResultsInv(Spawning(s)) && FromBatch(Spawning(s), jobs)
  {
    var n, rest := Spawning(s), s.phase.rest;
    assert Waiting(s.phase) == rest && Waiting(n.phase) == rest[1..];
    assert forall i :: 0 <= i < |rest[1..]| ==> rest[1..][i] == rest[i + 1];
    assert rest[0] in jobs && rest[0].id !in s.results;
  }

  lemma SpawnUnfinished(s: State, id: int)
    requires s.phase.Holding? && s.phase.rest != [] && s.nextTask !in s.tasks
    ensures Unfinished(Spawning(s), id) <==> Unfinished(s, id)
  {
    var n, rest := Spawning(s), s.phase.rest;
    var later := rest[1..];
    assert Waiting(s.phase) == rest && Waiting(n.phase) == later;
    assert n.tasks[s.nextTask].job == rest[0] && n.tasks[s.nextTask].stage == Ready;
    assert forall u :: u in s.tasks ==> n.tasks[u] == s.tasks[u];
    if Taken(rest, id) {
      var i :| 0 <= i < |rest| && rest[i].id == id;
      assert i > 0 ==> later[i - 1].id == id;
    }
    if Taken(later, id) {
      var i :| 0 <= i < |later| && later[i].id == id;
      assert rest[i + 1].id == id;
    }
    if exists u :: u in s.tasks && s.tasks[u].job.id == id && !s.tasks[u].stage.Written? {
      var u :| u in s.tasks && s.tasks[u].job.id == id && !s.tasks[u].stage.Written?;
      assert n.tasks[u] == s.tasks[u];
    }
    if exists u :: u in n.tasks && n.tasks[u].job.id == id && !n.tasks[u].stage.Written? {
      var u :| u in n.tasks && n.tasks[u].job.id == id && !n.tasks[u].stage.Written?;
      assert u == s.nextTask || n.tasks[u] == s.tasks[u];
    }
  }

  lemma ReleaseResults(s: State, t: nat, jobs: seq<Job>)
    requires ResultsInv(s) && FromBatch(s, jobs) && t in s.tasks
    ensures ResultsInv(Releasing(s, t)) && FromBatch(Releasing(s, t), jobs)
  {
  }

  lemma ReleaseUnfinished(s: State, t: nat, id: int)
    requires t in s.tasks && s.tasks[t].stage.Written?
    ensures Unfinished(Releasing(s, t), id) <==> Unfinished(s, id)
  {
    var n := Releasing(s, t);
    assert forall u :: u in s.tasks && u != t ==> u in n.tasks && n.tasks[u] == s.tasks[u];
  }

  lemma ReleaseMidway(b: State, jobs: seq<Job>, s: State, t: nat)
    requires Midway(b, jobs, s) && Enabled(s, Release(t))
    ensures Midway(b, jobs, Releasing(s, t))
  {
    var n := Releasing(s, t);
    InvStep(s, Release(t));
    forall id
      ensures Unfinished(n, id) <==> Unfinished(s, id)
    {
      ReleaseUnfinished(s, t, id);
    }
    ReleaseResults(s, t, jobs);
    QuietMidway(b, jobs, s, n);
  }

  lemma ArriveMidway(b: State, jobs: seq<Job>, s: State, l: Label)
    requires Midway(b, jobs, s) && l.Arrive?
    ensures Midway(b, jobs, Arriving(s, l))
  {
    var n := Arriving(s, l);
    InvStep(s, l);
    forall id | id <= b.table.lastId
      ensures RowInv(b, jobs, n, id)
    {
      assert RowInv(b, jobs, s, id) && At(n.table, id) == At(s.table, id);
    }
  }

  lemma InlineMidway(b: State, jobs: seq<Job>, s: State, entry: Record, accepted: bool)
    requires Midway(b, jobs, s)
    ensures Midway(b, jobs, Inlining(s, entry, accepted))
  {
    var n, own := Inlining(s, entry, accepted), LogAll(b.settings, jobs, s.results);
    InvStep(s, Inline(entry, accepted));
    forall id | id <= b.table.lastId
      ensures RowInv(b, jobs, n, id)
    {
      assert RowInv(b, jobs, s, id);
    }
    MoveLast(b.log, s.inline, own, multiset{entry});
  }

  lemma MoveLast<T>(a: multiset<T>, b: multiset<T>, c: multiset<T>, d: multiset<T>)
    ensures a + b + c + d == a + (b + d) + c
  {
  }

  lemma MidwayStep(b: State, jobs: seq<Job>, s: State, l: Label)
    requires Midway(b, jobs, s) && Enabled(s, l) && DuringDrain(l)
    ensures Midway(b, jobs, Next(s, l))
  {
    match l
    case Arrive(_, _, _, _, _) => ArriveMidway(b, jobs, s, l);
    case Inline(entry, accepted) => InlineMidway(b, jobs, s, entry, accepted);
    case Spawn => SpawnMidway(b, jobs, s);
    case Reply(t, wire) => ReplyMidway(b, jobs, s, t, wire);
    case Note(t, accepted) => NoteMidway(b, jobs, s, t, accepted);
    case Write(t, now, accepted) => WriteMidway(b, jobs, s, t, now, accepted);
    case Release(t) => ReleaseMidway(b, jobs, s, t);
    case Acquire => LoopMidway(b, jobs, s, l);
    case Fill => LoopMidway(b, jobs, s, l);
  }

  lemma LoopMidway(b: State, jobs: seq<Job>, s: State, l: Label)
    requires Midway(b, jobs, s) && Enabled(s, l) && (l.Acquire? || l.Fill?)
    ensures Midway(b, jobs, Next(s, l))
  {
    InvStep(s, l);
    QuietMidway(b, jobs, s, Next(s, l));
  }

  lemma {:induction false} MidwayRun(b: State, jobs: seq<Job>, s: State, ls: seq<Label>)
    requires Midway(b, jobs, s) && Runnable(s, ls) && forall i :: 0 <= i < |ls| ==> DuringDrain(ls[i])
    ensures Midway(b, jobs, After(s, ls))
    decreases ls
  {
    if ls != [] {
      MidwayStep(b, jobs, s, ls[0]);
      MidwayRun(b, jobs, Next(s, ls[0]), ls[1..]);
    }
  }

  lemma {:induction false} LogAllEmpty(settings: Settings, jobs: seq<Job>)
    ensures LogAll(settings, jobs, map[]) == multiset{}
    decreases jobs
  {
    if jobs != [] {
      LogAllEmpty(settings, jobs[1..]);
    }
  }

  lemma MidwayStart(s: State, now: int, jobs: seq<Job>)
    requires Inv(s) && !s.cancelled && Enabled(s, Claim(now, jobs))
    ensures Midway(Claiming(s, now, jobs), jobs, Claiming(s, now, jobs))
  {
    var b := Claiming(s, now, jobs);
    InvStep(s, Claim(now, jobs));
    LogAllEmpty(b.settings, jobs);
    SoundClaim(s, Millis(now), 4 * Cap(s), jobs);
    assert Waiting(b.phase) == jobs;
    forall id | id <= b.table.lastId
      ensures RowInv(b, jobs, b, id)
    {
      assert Taken(jobs, id) ==> Unfinished(b, id);
    }
  }

  // --- arrivals ---

  lemma {:induction false} ArrivalsAt(q: Table, r: Table, ls: seq<Label>, id: int)
    requires q.lastId == r.lastId && At(q, id) == At(r, id)
    ensures At(InsertAll(q, ls), id) == At(InsertAll(r, ls), id)
    ensures InsertAll(q, ls).lastId == InsertAll(r, ls).lastId
    ensures id <= q.lastId ==> At(InsertAll(q, ls), id) == At(q, id)
    decreases ls
  {
    if ls != [] {
      var l := ls[0];
      if l.Arrive? && l.accepted {
        ArrivalsAt(Inserted(q, l.messageId, l.route, l.payload, Millis(l.now)),
          Inserted(r, l.messageId, l.route, l.payload, Millis(l.now)), ls[1..], id);
      } else {
        ArrivalsAt(q, r, ls[1..], id);
      }
    }
  }

  /** Rows younger than the batch are exactly the arrivals. */
  lemma {:induction false} ArrivalsRun(b: State, jobs: seq<Job>, s: State, ls: seq<Label>, id: int)
    requires Midway(b, jobs, s) && Runnable(s, ls) && forall i :: 0 <= i < |ls| ==> DuringDrain(ls[i])
    requires id > b.table.lastId
    ensures At(After(s, ls).table, id) == At(InsertAll(s.table, ls), id)
    ensures After(s, ls).table.lastId == InsertAll(s.table, ls).lastId
    decreases ls
  {
    if ls != [] {
      var l := ls[0];
      var n := Next(s, l);
      MidwayStep(b, jobs, s, l);
      ArrivalsRun(b, jobs, n, ls[1..], id);
      if l.Write? {
        WriteIsYoungerBlind(b, jobs, s, l, id);
        ArrivalsAt(n.table, s.table, ls[1..], id);
      }
    }
  }

  lemma WriteIsYoungerBlind(b: State, jobs: seq<Job>, s: State, l: Label, id: int)
    requires Midway(b, jobs, s) && l.Write? && Enabled(s, l) && id > b.table.lastId
    ensures At(Next(s, l).table, id) == At(s.table, id) && Next(s, l).table.lastId == s.table.lastId
  {
    var j := s.tasks[l.task].job;
    WriteIsHandled(s, l.task, l.now, l.accepted);
    var k := IndexOfJob(jobs, j);
    assert SoundJob(jobs[k], b.table.lastId);
    HandledAt(s.settings, s.table, s.table, j, Final(s, l.task, l.now, l.accepted), id);
  }

  /** What sessions log during the steps `ls`. */
  function InlineAll(settings: Settings, ls: seq<Label>): multiset<Record>
    decreases ls
  {
    if ls == [] then multiset{}
    else (if ls[0].Inline? && ls[0].accepted && settings.logContent then multiset{ls[0].entry} else multiset{}) + InlineAll(settings, ls[1..])
  }

  lemma {:induction false} InlineRun(s: State, ls: seq<Label>)
    requires Inv(s) && Runnable(s, ls) && forall i :: 0 <= i < |ls| ==> DuringDrain(ls[i])
    ensures After(s, ls).inline == s.inline + InlineAll(s.settings, ls)
    decreases ls
  {
    if ls != [] {
      InvStep(s, ls[0]);
      InlineStep(s, ls[0]);
      InlineRun(Next(s, ls[0]), ls[1..]);
    }
  }

  lemma InlineStep(s: State, l: Label)
    requires Sound(s) && Enabled(s, l) && DuringDrain(l)
    ensures Next(s, l).settings == s.settings
    ensures Next(s, l).inline == s.inline + if l.Inline? && l.accepted && s.settings.logContent then multiset{l.entry} else multiset{}
  {
  }

  // --- the theorem ---

  /** A drain from its claim to the end of its barrier, with arrivals in between. */
  ghost predicate CompleteDrain(s: State, now: int, jobs: seq<Job>, ls: seq<Label>)
  {
    && Inv(s) && !s.cancelled && Enabled(s, Claim(now, jobs))
    && (InvStep(s, Claim(now, jobs)); Runnable(Claiming(s, now, jobs), ls))
    && (forall i :: 0 <= i < |ls| ==> DuringDrain(ls[i]))
    && After(Claiming(s, now, jobs), ls).phase.Idle?
  }

  ghost function DrainEnd(s: State, now: int, jobs: seq<Job>, ls: seq<Label>): State
    requires CompleteDrain(s, now, jobs, ls)
  {
    After(Claiming(s, now, jobs), ls)
  }

  /**
   Every interleaving of a completed drain leaves the queue and the log that
   handling the claimed jobs one by one would leave, followed by the arrivals and
   with what sessions logged meanwhile.
   */
  lemma DrainIsSerial(s: State, now: int, jobs: seq<Job>, ls: seq<Label>)
    requires CompleteDrain(s, now, jobs, ls)
    ensures forall i :: 0 <= i < |jobs| ==> jobs[i].attempts >= 0
    ensures var n := DrainEnd(s, now, jobs, ls);
      && n.table == InsertAll(HandleAll(s.settings, s.table, jobs, n.results), ls)
      && n.log == s.log + InlineAll(s.settings, ls) + LogAll(s.settings, jobs, n.results)
      && Inv(n) && !n.cancelled && n.settings == s.settings
  {
    var b := Claiming(s, now, jobs);
    MidwayStart(s, now, jobs);
    MidwayRun(b, jobs, b, ls);
    InlineRun(b, ls);
    var n := DrainEnd(s, now, jobs, ls);
    assert multiset{} + InlineAll(s.settings, ls) == InlineAll(s.settings, ls);
    var serial := HandleAll(s.settings, s.table, jobs, n.results);
    HandleAllAt(s.settings, s.table, jobs, n.results, 0);
    forall id
      ensures At(n.table, id) == At(InsertAll(serial, ls), id) && n.table.lastId == InsertAll(serial, ls).lastId
    {
      DrainRow(s, now, jobs, ls, id);
    }
    assert n.table.lastId == InsertAll(serial, ls).lastId by { DrainRow(s, now, jobs, ls, 0); }
    TablesEqual(n.table, InsertAll(serial, ls));
  }

  lemma DrainRow(s: State, now: int, jobs: seq<Job>, ls: seq<Label>, id: int)
    requires CompleteDrain(s, now, jobs, ls)
    requires forall i :: 0 <= i < |jobs| ==> jobs[i].attempts >= 0
    ensures var n := DrainEnd(s, now, jobs, ls);
      var all := InsertAll(HandleAll(s.settings, s.table, jobs, n.results), ls);
      At(n.table, id) == At(all, id) && n.table.lastId == all.lastId
  {
    var next := s.table.lastId + 1;
    DrainYoung(s, now, jobs, ls, if id < next then next else id);
    if id < next {
      DrainOld(s, now, jobs, ls, id);
    }
  }

  /** Rows the drain could have claimed. */
  lemma DrainOld(s: State, now: int, jobs: seq<Job>, ls: seq<Label>, id: int)
    requires CompleteDrain(s, now, jobs, ls) && id <= s.table.lastId
    requires forall i :: 0 <= i < |jobs| ==> jobs[i].attempts >= 0
    ensures var n := DrainEnd(s, now, jobs, ls);
      At(n.table, id) == At(InsertAll(HandleAll(s.settings, s.table, jobs, n.results), ls), id)
  {
    var b := Claiming(s, now, jobs);
    MidwayStart(s, now, jobs);
    MidwayRun(b, jobs, b, ls);
    var n := DrainEnd(s, now, jobs, ls);
    var serial := HandleAll(s.settings, s.table, jobs, n.results);
    HandleAllAt(s.settings, s.table, jobs, n.results, id);
    assert RowInv(b, jobs, n, id) && !Unfinished(n, id);
    ArrivalsAt(serial, serial, ls, id);
    SeriallyUnique(s.settings, s.table, jobs, n.results, id, At(n.table, id), At(serial, id));
  }

  /** Rows that arrived during the drain. */
  lemma DrainYoung(s: State, now: int, jobs: seq<Job>, ls: seq<Label>, id: int)
    requires CompleteDrain(s, now, jobs, ls) && id > s.table.lastId
    requires forall i :: 0 <= i < |jobs| ==> jobs[i].attempts >= 0
    ensures var n := DrainEnd(s, now, jobs, ls);
      var all := InsertAll(HandleAll(s.settings, s.table, jobs, n.results), ls);
      At(n.table, id) == At(all, id) && n.table.lastId == all.lastId
  {
    var b := Claiming(s, now, jobs);
    MidwayStart(s, now, jobs);
    var results := DrainEnd(s, now, jobs, ls).results;
    ArrivalsRun(b, jobs, b, ls, id);
    YoungerUntouched(s, now, jobs, results, id);
    ArrivalsAt(s.table, HandleAll(s.settings, s.table, jobs, results), ls, id);
  }

  lemma SeriallyUnique(settings: Settings, q: Table, jobs: seq<Job>, results: map<int, Outcome>, id: int, row: Option<Row>, other: Option<Row>)
    requires forall i :: 0 <= i < |jobs| ==> jobs[i].attempts >= 0
    requires Serially(settings, q, jobs, results, id, row) && Serially(settings, q, jobs, results, id, other)
    ensures row == other
  {
    if Taken(jobs, id) {
      var i :| 0 <= i < |jobs| && jobs[i].id == id;
    }
  }

  lemma YoungerUntouched(s: State, now: int, jobs: seq<Job>, results: map<int, Outcome>, id: int)
    requires Sound(s) && IsClaim(s.table, Millis(now), 4 * Cap(s), jobs) && id > s.table.lastId
    requires forall i :: 0 <= i < |jobs| ==> jobs[i].attempts >= 0
    ensures At(HandleAll(s.settings, s.table, jobs, results), id) == At(s.table, id)
    ensures HandleAll(s.settings, s.table, jobs, results).lastId == s.table.lastId
  {
    HandleAllAt(s.settings, s.table, jobs, results, id);
    SoundClaim(s, Millis(now), 4 * Cap(s), jobs);
    assert SoundJobs(jobs, s.table.lastId) by { assert Waiting(Continue(jobs)) == jobs; }
    assert !Taken(jobs, id);
  }

  /** The accepted arrivals among `ls`, in order. */
  function Arrivals(ls: seq<Label>): seq<Label> {
    if ls == [] then []
    else (if ls[0].Arrive? && ls[0].accepted then [ls[0]] else []) + Arrivals(ls[1..])
  }

  lemma {:induction false} InsertAllArrivals(q: Table, ls: seq<Label>)
    ensures InsertAll(q, ls) == InsertAll(q, Arrivals(ls))
    decreases ls
  {
    if ls != [] {
      var l, later := ls[0], Arrivals(ls[1..]);
      if l.Arrive? && l.accepted {
        assert ([l] + later)[1..] == later;
        InsertAllArrivals(Inserted(q, l.messageId, l.route, l.payload, Millis(l.now)), ls[1..]);
      } else {
        assert [] + later == later;
        InsertAllArrivals(q, ls[1..]);
      }
    }
  }

  /** Two interleavings in which the jobs meet the same outcomes, with the same arrivals, end alike. */
  lemma InterleavingsAgree(s: State, now: int, jobs: seq<Job>, ls: seq<Label>, ls': seq<Label>)
    requires CompleteDrain(s, now, jobs, ls) && CompleteDrain(s, now, jobs, ls')
    requires DrainEnd(s, now, jobs, ls).results == DrainEnd(s, now, jobs, ls').results
    requires Arrivals(ls) == Arrivals(ls') && InlineAll(s.settings, ls) == InlineAll(s.settings, ls')
    ensures DrainEnd(s, now, jobs, ls).table == DrainEnd(s, now, jobs, ls').table
    ensures DrainEnd(s, now, jobs, ls).log == DrainEnd(s, now, jobs, ls').log
  {
    DrainIsSerial(s, now, jobs, ls);
    DrainIsSerial(s, now, jobs, ls');
    var serial := HandleAll(s.settings, s.table, jobs, DrainEnd(s, now, jobs, ls).results);
    InsertAllArrivals(serial, ls);
    InsertAllArrivals(serial, ls');
  }
}
