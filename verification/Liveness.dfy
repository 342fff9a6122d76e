/**
 What a sequence of completed drains achieves when the store accepts every
 write: no due job waits behind others for ever, and the queue runs empty.
 */
module Liveness {
  import opened Backoff
  import opened Queue
  import opened Delivery
  import opened Worker
  import opened Exclusion
  import opened Progress
  import opened Serial
  import opened Attempts

  /** One drain: its clock reading, what it claimed, and the steps up to its end and beyond to the next tick. */
  datatype Drain = Drain(now: int, jobs: seq<Job>, steps: seq<Label>)

  /** No write is refused, and none reads the clock as earlier than the claim did. */
  predicate Faultless(ls: seq<Label>, claimNow: int) {
    forall i :: 0 <= i < |ls| && ls[i].Write? ==> ls[i].accepted && ls[i].now >= claimNow
  }

  ghost predicate Drains(s: State, ds: seq<Drain>)
    decreases ds
  {
    ds == [] || (
      && CompleteDrain(s, ds[0].now, ds[0].jobs, ds[0].steps)
      && Faultless(ds[0].steps, ds[0].now)
      && Drains(DrainEnd(s, ds[0].now, ds[0].jobs, ds[0].steps), ds[1..]))
  }

  ghost function AfterDrains(s: State, ds: seq<Drain>): State
    requires Drains(s, ds)
    decreases ds
  {
    if ds == [] then s else AfterDrains(DrainEnd(s, ds[0].now, ds[0].jobs, ds[0].steps), ds[1..])
  }

  // --- what a faultless drain records ---

  predicate Fine(o: Outcome, claimNow: int) {
    o.accepted && o.now >= claimNow
  }

  ghost predicate AllFine(s: State, jobs: seq<Job>, claimNow: int) {
    forall i :: 0 <= i < |jobs| && !Unfinished(s, jobs[i].id) ==> Fine(Met(s.results, jobs[i].id), claimNow)
  }

  lemma FineMove(s: State, n: State, jobs: seq<Job>, t: nat, stage: Stage, o: Outcome, claimNow: int)
    requires Exclusive(s) && AllFine(s, jobs, claimNow) && t in s.tasks && n.tasks == Advance(s, t, stage) && n.phase == s.phase
    requires n.results == s.results[s.tasks[t].job.id := o]
    requires stage.Written? ==> Fine(o, claimNow)
    ensures AllFine(n, jobs, claimNow)
  {
    forall i | 0 <= i < |jobs| && !Unfinished(n, jobs[i].id)
      ensures Fine(Met(n.results, jobs[i].id), claimNow)
    {
      UnfinishedElsewhere(s, n, t, stage, jobs[i].id);
    }
  }

  lemma FineSpawn(s: State, jobs: seq<Job>, claimNow: int)
    requires Inv(s) && AllFine(s, jobs, claimNow) && s.phase.Holding?
    ensures AllFine(Spawning(s), jobs, claimNow)
  {
    forall i | 0 <= i < |jobs|
      ensures Unfinished(Spawning(s), jobs[i].id) <==> Unfinished(s, jobs[i].id)
    {
      SpawnUnfinished(s, jobs[i].id);
    }
  }

  lemma FineRelease(s: State, jobs: seq<Job>, t: nat, claimNow: int)
    requires AllFine(s, jobs, claimNow) && t in s.tasks && s.tasks[t].stage.Written?
    ensures AllFine(Releasing(s, t), jobs, claimNow)
  {
    var n := Releasing(s, t);
    assert forall u :: u in s.tasks && u != t ==> u in n.tasks && n.tasks[u] == s.tasks[u];
  }

  lemma FineStep(b: State, jobs: seq<Job>, s: State, l: Label, claimNow: int)
    requires Midway(b, jobs, s) && AllFine(s, jobs, claimNow) && Enabled(s, l) && DuringDrain(l)
    requires l.Write? ==> l.accepted && l.now >= claimNow
    ensures AllFine(Next(s, l), jobs, claimNow)
  {
    match l
    case Spawn => FineSpawn(s, jobs, claimNow);
    case Reply(t, wire) =>
      FineMove(s, Next(s, l), jobs, t, Replied(wire), Known(s, s.tasks[t].job.id).(wire := wire), claimNow);
    case Note(t, accepted) =>
      FineMove(s, Next(s, l), jobs, t, Noted(s.tasks[t].stage.wire), Known(s, s.tasks[t].job.id).(logged := accepted), claimNow);
    case Write(t, now, accepted) =>
      FineMove(s, Next(s, l), jobs, t, Written, Final(s, t, now, accepted), claimNow);
    case Release(t) => FineRelease(s, jobs, t, claimNow);
    case Arrive(_, _, _, _, _) =>
    case Inline(_, _) =>
    case Acquire =>
    case Fill =>
  }

  lemma {:induction false} FineRun(b: State, jobs: seq<Job>, s: State, ls: seq<Label>, claimNow: int)
    requires Midway(b, jobs, s) && AllFine(s, jobs, claimNow) && Runnable(s, ls)
    requires Faultless(ls, claimNow) && forall i :: 0 <= i < |ls| ==> DuringDrain(ls[i])
    ensures AllFine(After(s, ls), jobs, claimNow)
    decreases ls
  {
    if ls != [] {
      FineStep(b, jobs, s, ls[0], claimNow);
      MidwayStep(b, jobs, s, ls[0]);
      FineRun(b, jobs, Next(s, ls[0]), ls[1..], claimNow);
    }
  }

  /** Every claimed job of a faultless drain ends with an accepted write, timed no earlier than the claim. */
  lemma DrainIsFine(s: State, d: Drain)
    requires CompleteDrain(s, d.now, d.jobs, d.steps) && Faultless(d.steps, d.now)
    ensures forall i :: 0 <= i < |d.jobs| ==> Fine(Met(DrainEnd(s, d.now, d.jobs, d.steps).results, d.jobs[i].id), d.now)
  {
    var b := Claiming(s, d.now, d.jobs);
    MidwayStart(s, d.now, d.jobs);
    assert Waiting(b.phase) == d.jobs;
    assert forall i :: 0 <= i < |d.jobs| ==> Taken(Waiting(b.phase), d.jobs[i].id);
    FineRun(b, d.jobs, b, d.steps, d.now);
    MidwayRun(b, d.jobs, b, d.steps);
    var n := DrainEnd(s, d.now, d.jobs, d.steps);
    assert Waiting(n.phase) == [] && n.tasks == map[];
  }

  // --- starvation freedom ---

  /** Jobs due by millisecond `t`. */
  function Early(q: Table, t: int): set<int> {
    set id | id in q.rows && q.rows[id].nextAttemptAt <= t
  }

  predicate LateArrivals(ls: seq<Label>, t: int) {
    forall i :: 0 <= i < |ls| && ls[i].Arrive? ==> Millis(ls[i].now) > t
  }

  lemma {:induction false} ArrivalsAreLate(q: Table, ls: seq<Label>, t: int)
    requires SoundTable(q) && LateArrivals(ls, t)
    ensures Early(InsertAll(q, ls), t) == Early(q, t)
    ensures forall id :: id in q.rows ==> At(InsertAll(q, ls), id) == At(q, id)
    decreases ls
  {
    if ls != [] {
      var l := ls[0];
      var r := if l.Arrive? && l.accepted then Inserted(q, l.messageId, l.route, l.payload, Millis(l.now)) else q;
      assert q.lastId + 1 !in q.rows;
      assert forall id :: id in q.rows ==> id in r.rows && r.rows[id] == q.rows[id];
      assert Early(r, t) == Early(q, t);
      ArrivalsAreLate(r, ls[1..], t);
      forall id | id in q.rows
        ensures At(InsertAll(q, ls), id) == At(q, id)
      {
        assert At(InsertAll(r, ls[1..]), id) == At(r, id);
      }
    }
  }

  /** A job handled after `t` is not due by `t` any more. */
  lemma HandledIsLate(settings: Settings, q: Table, j: Job, o: Outcome, claimNow: int, t: int)
    requires j.attempts >= 0 && Fine(o, claimNow) && Millis(claimNow) > t
    requires NoWrap(settings.delivery.retryBackoff, settings.delivery.maxRetries)
    ensures j.id !in Early(Handled(settings, q, j, o), t)
  {
    var f := FateOf(settings, j, o);
    if f.Retry? {
      DelayWithin(settings.delivery.retryBackoff, j.attempts + 1, settings.delivery.maxRetries);
      MillisMonotone(claimNow, o.now + Delay(settings.delivery.retryBackoff, j.attempts + 1));
    }
  }

  function Ids(jobs: seq<Job>): set<int> {
    set i | 0 <= i < |jobs| :: jobs[i].id
  }

  lemma {:induction false} IdsCount(jobs: seq<Job>)
    requires DistinctJobs(jobs)
    ensures |Ids(jobs)| == |jobs|
    decreases jobs
  {
    if jobs != [] {
      var init := jobs[..|jobs| - 1];
      IdsCount(init);
      assert forall i :: 0 <= i < |init| ==> init[i].id == jobs[i].id != jobs[|jobs| - 1].id;
      assert jobs[|jobs| - 1].id !in Ids(init);
      assert Ids(jobs) == Ids(init) + {jobs[|jobs| - 1].id};
    }
  }

  ghost predicate LateDrain(s: State, d: Drain, t: int) {
    && CompleteDrain(s, d.now, d.jobs, d.steps) && Faultless(d.steps, d.now)
    && Millis(d.now) > t && LateArrivals(d.steps, t)
    && NoWrap(s.settings.delivery.retryBackoff, s.settings.delivery.maxRetries)
  }

  /** A drain leaves due by `t` only jobs that were, and that it did not claim. */
  lemma DrainClears(s: State, d: Drain, t: int)
    requires LateDrain(s, d, t)
    ensures var n := DrainEnd(s, d.now, d.jobs, d.steps);
      && Early(n.table, t) <= Early(s.table, t) - Ids(d.jobs)
      && (forall id :: id in s.table.rows && !Taken(d.jobs, id) ==> At(n.table, id) == At(s.table, id))
  {
    var n := DrainEnd(s, d.now, d.jobs, d.steps);
    DrainIsSerial(s, d.now, d.jobs, d.steps);
    DrainIsFine(s, d);
    var serial := HandleAll(s.settings, s.table, d.jobs, n.results);
    forall id
      ensures id in serial.rows ==> 1 <= id <= s.table.lastId && serial.rows[id].attempts >= 0
      ensures id in Early(serial, t) ==> id in Early(s.table, t) && id !in Ids(d.jobs)
      ensures id in s.table.rows && !Taken(d.jobs, id) ==> At(serial, id) == At(s.table, id)
    {
      SerialClears(s, d, t, n.results, id);
    }
    HandleAllAt(s.settings, s.table, d.jobs, n.results, 0);
    ArrivalsAreLate(serial, d.steps, t);
    assert Early(n.table, t) == Early(serial, t);
    forall id | id in Early(n.table, t)
      ensures id in Early(s.table, t) - Ids(d.jobs)
    {
      assert id in Early(serial, t);
    }
    forall id | id in s.table.rows && !Taken(d.jobs, id)
      ensures At(n.table, id) == At(s.table, id)
    {
      assert At(serial, id) == At(s.table, id);
      assert id in serial.rows;
    }
  }

  lemma SerialClears(s: State, d: Drain, t: int, results: map<int, Outcome>, id: int)
    requires LateDrain(s, d, t)
    requires forall i :: 0 <= i < |d.jobs| ==> d.jobs[i].attempts >= 0 && Fine(Met(results, d.jobs[i].id), d.now)
    ensures var serial := HandleAll(s.settings, s.table, d.jobs, results);
      && (id in serial.rows ==> 1 <= id <= s.table.lastId && serial.rows[id].attempts >= 0)
      && (id in Early(serial, t) ==> id in Early(s.table, t) && id !in Ids(d.jobs))
      && (id in s.table.rows && !Taken(d.jobs, id) ==> At(serial, id) == At(s.table, id))
  {
    var serial := HandleAll(s.settings, s.table, d.jobs, results);
    HandleAllAt(s.settings, s.table, d.jobs, results, id);
    if Taken(d.jobs, id) {
      var i :| 0 <= i < |d.jobs| && d.jobs[i].id == id;
      var o := Met(results, id);
      HandledIsLate(s.settings, s.table, d.jobs[i], o, d.now, t);
      SoundSettle(s.table, id, FateOf(s.settings, d.jobs[i], o));
      assert At(serial, id) == At(Handled(s.settings, s.table, d.jobs[i], o), id);
    }
  }

  /** A drain that passes over a due job claims a full batch of jobs due no later. */
  lemma PassedOver(s: State, d: Drain, id: int, t: int)
    requires LateDrain(s, d, t) && id in Early(s.table, t) && !Taken(d.jobs, id)
    ensures |d.jobs| == 4 * Cap(s) && Ids(d.jobs) <= Early(s.table, t) - {id}
    ensures |Ids(d.jobs)| == |d.jobs|
  {
    assert Due(s.table, id, Millis(d.now));
    IdsCount(d.jobs);
    forall x | x in Ids(d.jobs)
      ensures x in Early(s.table, t) && x != id
    {
      var i :| 0 <= i < |d.jobs| && d.jobs[i].id == x;
      assert Due(s.table, x, Millis(d.now));
    }
  }

  ghost predicate LateDrains(s: State, ds: seq<Drain>, t: int) {
    && Drains(s, ds)
    && (forall i :: 0 <= i < |ds| ==> Millis(ds[i].now) > t && LateArrivals(ds[i].steps, t))
    && NoWrap(s.settings.delivery.retryBackoff, s.settings.delivery.maxRetries)
  }

  lemma SubsetCount(a: set<int>, b: set<int>)
    requires a <= b
    ensures |a| <= |b| && |b - a| == |b| - |a|
  {
    assert b == a + (b - a);
  }

  /** A drain that passes over the job shrinks the crowd ahead of it by a full batch. */
  lemma CrowdShrinks(s: State, d: Drain, id: int, t: int)
    requires LateDrain(s, d, t) && id in Early(s.table, t) && !Taken(d.jobs, id)
    ensures var n := DrainEnd(s, d.now, d.jobs, d.steps);
      && id in Early(n.table, t)
      && |Early(n.table, t) - {id}| <= |Early(s.table, t) - {id}| - 4 * Cap(s)
  {
    var n := DrainEnd(s, d.now, d.jobs, d.steps);
    PassedOver(s, d, id, t);
    DrainClears(s, d, t);
    var others, others' := Early(s.table, t) - {id}, Early(n.table, t) - {id};
    SubsetCount(Ids(d.jobs), others);
    SubsetCount(others', others - Ids(d.jobs));
    assert At(n.table, id) == At(s.table, id);
  }

  /** Drains that may pass before the job's turn: the others due by `t`, in full batches. */
  function Turn(s: State, id: int, t: int): nat
    requires Cap(s) >= 1
  {
    Batches(|Early(s.table, t) - {id}|, 4 * Cap(s))
  }

  function Batches(m: nat, size: int): nat
    requires size >= 1
  {
    m / size
  }

  lemma LateRest(s: State, ds: seq<Drain>, t: int)
    requires LateDrains(s, ds, t) && ds != []
    ensures LateDrain(s, ds[0], t)
    ensures var n := DrainEnd(s, ds[0].now, ds[0].jobs, ds[0].steps); LateDrains(n, ds[1..], t) && Cap(n) == Cap(s)
  {
    DrainIsSerial(s, ds[0].now, ds[0].jobs, ds[0].steps);
    assert forall i :: 0 <= i < |ds[1..]| ==> ds[1..][i] == ds[i + 1];
  }

  lemma TurnComesCloser(s: State, d: Drain, id: int, t: int)
    requires LateDrain(s, d, t) && id in Early(s.table, t) && !Taken(d.jobs, id) && Cap(s) >= 1
    requires Cap(DrainEnd(s, d.now, d.jobs, d.steps)) == Cap(s)
    ensures var n := DrainEnd(s, d.now, d.jobs, d.steps); id in Early(n.table, t) && Turn(n, id, t) <= Turn(s, id, t) - 1
  {
    CrowdShrinks(s, d, id, t);
    OneBatchLess(|Early(s.table, t) - {id}|, |Early(DrainEnd(s, d.now, d.jobs, d.steps).table, t) - {id}|, 4 * Cap(s));
  }

  /** The job is claimed when its turn has come, if not before. */
  lemma {:induction false} ClaimedInTurn(s: State, ds: seq<Drain>, id: int, t: int) returns (k: nat)
    requires LateDrains(s, ds, t) && Cap(s) >= 1 && id in Early(s.table, t)
    requires |ds| > Turn(s, id, t)
    ensures k <= Turn(s, id, t) && k < |ds| && Taken(ds[k].jobs, id)
    decreases ds
  {
    var d := ds[0];
    if Taken(d.jobs, id) {
      k := 0;
    } else {
      LateRest(s, ds, t);
      TurnComesCloser(s, d, id, t);
      var later := ClaimedInTurn(DrainEnd(s, d.now, d.jobs, d.steps), ds[1..], id, t);
      k := later + 1;
    }
  }

  /**
   A job due at `t` with `m` others due by then is claimed by drain number
   m / (4 * Concurrency) + 1 at the latest, whatever arrives and however ties fall.
   */
  lemma NoStarvation(s: State, ds: seq<Drain>, id: int, t: int, m: nat) returns (k: nat)
    requires LateDrains(s, ds, t) && s.settings.delivery.concurrency >= 1
    requires id in s.table.rows && s.table.rows[id].nextAttemptAt <= t
    requires m == |set other | other in s.table.rows && s.table.rows[other].nextAttemptAt <= t && other != id|
    requires |ds| > m / (4 * s.settings.delivery.concurrency)
    ensures k <= m / (4 * s.settings.delivery.concurrency) && k < |ds| && exists i :: 0 <= i < |ds[k].jobs| && ds[k].jobs[i].id == id
  {
    assert Early(s.table, t) - {id} == set other | other in s.table.rows && s.table.rows[other].nextAttemptAt <= t && other != id;
    k := ClaimedInTurn(s, ds, id, t);
  }

  lemma OneBatchLess(m: nat, m': nat, batch: int)
    requires batch >= 1 && m' <= m - batch
    ensures m' / batch <= m / batch - 1
  {
    var q, q' := m / batch, m' / batch;
    assert q * batch <= m < q * batch + batch && q' * batch <= m';
    Factor(q', q, batch);
    OneOrMore(q' - q + 1, batch);
  }

  lemma Factor(a: int, b: int, batch: int)
    ensures (a - b + 1) * batch == a * batch - b * batch + batch
  {
  }

  lemma OneOrMore(k: int, batch: int)
    requires batch >= 1
    ensures k >= 1 ==> k * batch >= batch
  {
    assert k * batch == (k - 1) * batch + batch;
  }

  // --- the queue empties ---

  /** Calls a row may still cause. */
  function Budget(r: Row, maxRetries: int): nat {
    AtLeastOne(maxRetries - r.attempts)
  }

  function RankBelow(q: Table, maxRetries: int, below: nat): nat {
    if below == 0 then 0
    else RankBelow(q, maxRetries, below - 1) + if below in q.rows then Budget(q.rows[below], maxRetries) else 0
  }

  function Rank(q: Table, maxRetries: int): nat
    requires q.lastId >= 0
  {
    RankBelow(q, maxRetries, q.lastId)
  }

  lemma {:induction false} RankChange(q: Table, r: Table, maxRetries: int, id: int, below: nat)
    requires forall i :: i != id ==> At(q, i) == At(r, i)
    ensures RankBelow(r, maxRetries, below) == RankBelow(q, maxRetries, below) +
      if 1 <= id <= below then (if id in r.rows then Budget(r.rows[id], maxRetries) else 0)
        - (if id in q.rows then Budget(q.rows[id], maxRetries) else 0) else 0
    decreases below
  {
    if below > 0 {
      RankChange(q, r, maxRetries, id, below - 1);
      assert below != id ==> At(q, below) == At(r, below);
    }
  }

  /** Handling one queued job, with its write accepted, lowers the rank. */
  lemma HandledLowersRank(settings: Settings, q: Table, j: Job, o: Outcome)
    requires SoundTable(q) && j.id in q.rows && j.attempts == q.rows[j.id].attempts && o.accepted
    ensures j.attempts >= 0 && SoundTable(Handled(settings, q, j, o)) && Handled(settings, q, j, o).lastId == q.lastId
    ensures Rank(Handled(settings, q, j, o), settings.delivery.maxRetries) < Rank(q, settings.delivery.maxRetries)
  {
    var r := Handled(settings, q, j, o);
    SoundSettle(q, j.id, FateOf(settings, j, o));
    forall i | i != j.id
      ensures At(q, i) == At(r, i)
    {
      HandledAt(settings, q, q, j, o, i);
    }
    RankChange(q, r, settings.delivery.maxRetries, j.id, q.lastId);
  }

  lemma {:induction false} HandleAllLowersRank(settings: Settings, q: Table, jobs: seq<Job>, results: map<int, Outcome>)
    requires SoundTable(q) && DistinctJobs(jobs)
    requires forall i :: 0 <= i < |jobs| ==>
      jobs[i].id in q.rows && jobs[i].attempts == q.rows[jobs[i].id].attempts && Met(results, jobs[i].id).accepted
    ensures forall i :: 0 <= i < |jobs| ==> jobs[i].attempts >= 0
    ensures HandleAll(settings, q, jobs, results).lastId == q.lastId
    ensures Rank(HandleAll(settings, q, jobs, results), settings.delivery.maxRetries) + |jobs| <= Rank(q, settings.delivery.maxRetries)
    decreases jobs
  {
    if jobs != [] {
      var j, rest := jobs[0], jobs[1..];
      var o := Met(results, j.id);
      HandledLowersRank(settings, q, j, o);
      var r := Handled(settings, q, j, o);
      assert forall i :: 0 <= i < |rest| ==> rest[i] == jobs[i + 1];
      forall i | 0 <= i < |rest|
        ensures rest[i].id in r.rows && r.rows[rest[i].id] == q.rows[rest[i].id]
      {
        assert jobs[0].id != jobs[i + 1].id;
        HandledAt(settings, q, q, j, o, rest[i].id);
        assert At(r, rest[i].id) == At(q, rest[i].id);
      }
      HandleAllLowersRank(settings, r, rest, results);
      assert forall i :: 0 < i < |jobs| ==> jobs[i] == rest[i - 1];
    }
  }

  predicate NoArrivals(ls: seq<Label>) {
    forall i :: 0 <= i < |ls| ==> !ls[i].Arrive?
  }

  lemma {:induction false} NothingInserted(q: Table, ls: seq<Label>)
    requires NoArrivals(ls)
    ensures InsertAll(q, ls) == q
    decreases ls
  {
    if ls != [] {
      NothingInserted(q, ls[1..]);
    }
  }

  /** A drain uses up at least one unit of rank for each job it claims. */
  lemma DrainLowersRank(s: State, d: Drain)
    requires CompleteDrain(s, d.now, d.jobs, d.steps) && Faultless(d.steps, d.now) && NoArrivals(d.steps)
    ensures var n := DrainEnd(s, d.now, d.jobs, d.steps);
      && n.table.lastId >= 0
      && Rank(n.table, s.settings.delivery.maxRetries) + |d.jobs| <= Rank(s.table, s.settings.delivery.maxRetries)
  {
    var n := DrainEnd(s, d.now, d.jobs, d.steps);
    DrainIsSerial(s, d.now, d.jobs, d.steps);
    DrainIsFine(s, d);
    forall i | 0 <= i < |d.jobs|
      ensures d.jobs[i].id in s.table.rows && d.jobs[i].attempts == s.table.rows[d.jobs[i].id].attempts
    {
      assert Due(s.table, d.jobs[i].id, Millis(d.now));
    }
    HandleAllLowersRank(s.settings, s.table, d.jobs, n.results);
    NothingInserted(HandleAll(s.settings, s.table, d.jobs, n.results), d.steps);
  }

  /** Each drain that finds a non-empty queue starts when something in it is due. */
  ghost predicate DrainsWhenDue(s: State, ds: seq<Drain>)
    requires Drains(s, ds)
    decreases ds
  {
    ds == [] || (
      && (s.table.rows != map[] ==> exists id :: Due(s.table, id, Millis(ds[0].now)))
      && NoArrivals(ds[0].steps)
      && DrainsWhenDue(DrainEnd(s, ds[0].now, ds[0].jobs, ds[0].steps), ds[1..]))
  }

  /** Jobs handled over all drains. */
  function Handlings(ds: seq<Drain>): nat {
    if ds == [] then 0 else |ds[0].jobs| + Handlings(ds[1..])
  }

  lemma {:induction false} RankOfRow(q: Table, maxRetries: int, id: int, below: nat)
    requires 1 <= id <= below && id in q.rows
    ensures RankBelow(q, maxRetries, below) >= 1
    decreases below
  {
    if id < below {
      RankOfRow(q, maxRetries, id, below - 1);
    }
  }

  lemma RankZeroIsEmpty(q: Table, maxRetries: int)
    requires SoundTable(q) && Rank(q, maxRetries) == 0
    ensures q.rows == map[]
  {
    forall id
      ensures id !in q.rows
    {
      if id in q.rows {
        RankOfRow(q, maxRetries, id, q.lastId);
      }
    }
  }

  lemma DueIsClaimed(s: State, d: Drain)
    requires CompleteDrain(s, d.now, d.jobs, d.steps) && exists id :: Due(s.table, id, Millis(d.now))
    ensures |d.jobs| >= 1
  {
    var id :| Due(s.table, id, Millis(d.now));
    assert Taken(d.jobs, id) ==> |d.jobs| >= 1;
  }

  /**
   Over drains without arrivals or faults, jobs are handled at most `Rank` times
   in all, and after as many drains as the rank the queue is empty.
   */
  lemma {:induction false} QueueEmpties(s: State, ds: seq<Drain>)
    requires Inv(s) && Drains(s, ds) && DrainsWhenDue(s, ds)
    ensures Handlings(ds) <= Rank(s.table, s.settings.delivery.maxRetries)
    ensures |ds| >= Rank(s.table, s.settings.delivery.maxRetries) ==> AfterDrains(s, ds).table.rows == map[]
    decreases ds
  {
    var rank := Rank(s.table, s.settings.delivery.maxRetries);
    if ds == [] {
      if rank == 0 { RankZeroIsEmpty(s.table, s.settings.delivery.maxRetries); }
    } else {
      var d := ds[0];
      var n := DrainEnd(s, d.now, d.jobs, d.steps);
      DrainLowersRank(s, d);
      DrainIsSerial(s, d.now, d.jobs, d.steps);
      QueueEmpties(n, ds[1..]);
      if rank == 0 {
        assert Rank(n.table, n.settings.delivery.maxRetries) == 0;
      } else if s.table.rows != map[] {
        DueIsClaimed(s, d);
      } else {
        EmptyRank(s.table, s.settings.delivery.maxRetries, s.table.lastId);
      }
    }
  }

  lemma {:induction false} EmptyRank(q: Table, maxRetries: int, below: nat)
    requires q.rows == map[]
    ensures RankBelow(q, maxRetries, below) == 0
    decreases below
  {
    if below > 0 {
      EmptyRank(q, maxRetries, below - 1);
    }
  }
}
