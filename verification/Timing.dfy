/** Retries are never early: the stored millisecond times honour the whole exponential backoff. */
module Timing {
  import opened Backoff
  import opened Queue
  import opened Delivery
  import opened Worker
  import opened Exclusion
  import opened Attempts

  /** Milliseconds of backoff before attempt number `attempts + 1`: base * (2^attempts - 1). */
  function Waited(baseMillis: nat, attempts: nat): nat {
    assert Pow2(attempts) - 1 >= 0;
    NonNegativeProduct(baseMillis, Pow2(attempts) - 1);
    baseMillis * (Pow2(attempts) - 1)
  }

  lemma NonNegativeProduct(a: nat, b: nat)
    ensures a * b >= 0
  {
  }

  ghost predicate BackedOff(q: Table, baseMillis: nat) {
    forall id :: id in q.rows && q.rows[id].attempts >= 0 ==>
      q.rows[id].nextAttemptAt >= q.rows[id].createdAt + Waited(baseMillis, q.rows[id].attempts)
  }

  /** The base is a whole number of milliseconds and no delay wraps. */
  predicate WholeMillis(settings: Settings, baseMillis: nat) {
    settings.delivery.retryBackoff == baseMillis * NANOS_PER_MILLI
      && NoWrap(settings.delivery.retryBackoff, settings.delivery.maxRetries)
  }

  /** A goroutine reads the clock no earlier than its drain did. */
  predicate ClockHolds(s: State, l: Label) {
    l.Write? && l.task in s.tasks ==> l.now >= s.tasks[l.task].claimedAt
  }

  ghost predicate Punctual(s: State, ls: seq<Label>)
    requires Sound(s) && Runnable(s, ls)
    decreases ls
  {
    ls == [] || (ClockHolds(s, ls[0]) && (SoundStep(s, ls[0]); Punctual(Next(s, ls[0]), ls[1..])))
  }

  /** Doubling: the waits add up. */
  lemma WaitedDoubles(baseMillis: nat, attempts: nat)
    ensures Waited(baseMillis, attempts) + baseMillis * Pow2(attempts) == Waited(baseMillis, attempts + 1)
  {
    var p := Pow2(attempts);
    assert baseMillis * (p - 1) + baseMillis * p == baseMillis * (2 * p - 1);
  }

  /** The next try of a failed attempt lies the exact delay after the clock reading, in whole milliseconds. */
  lemma NextTryMillis(settings: Settings, baseMillis: nat, attempt: int, now: int)
    requires WholeMillis(settings, baseMillis) && 1 <= attempt < settings.delivery.maxRetries
    ensures NextTry(settings, attempt, now) == Millis(now) + baseMillis * Pow2(attempt - 1)
  {
    DelayWithin(settings.delivery.retryBackoff, attempt, settings.delivery.maxRetries);
    var millis := baseMillis * Pow2(attempt - 1);
    assert settings.delivery.retryBackoff * Pow2(attempt - 1) == millis * NANOS_PER_MILLI by {
      Commute(baseMillis, NANOS_PER_MILLI, Pow2(attempt - 1));
    }
    MillisAdds(now, millis);
  }

  lemma Commute(a: int, b: int, c: int)
    ensures (a * b) * c == (a * c) * b
  {
  }

  lemma RetryIsBackedOff(settings: Settings, baseMillis: nat, row: Row, now: int, claimedAt: int)
    requires WholeMillis(settings, baseMillis) && row.attempts >= 0 && row.attempts + 1 < settings.delivery.maxRetries
    requires row.nextAttemptAt >= row.createdAt + Waited(baseMillis, row.attempts)
    requires row.nextAttemptAt <= Millis(claimedAt) && claimedAt <= now
    ensures NextTry(settings, row.attempts + 1, now) >= row.createdAt + Waited(baseMillis, row.attempts + 1)
  {
    MillisMonotone(claimedAt, now);
    NextTryMillis(settings, baseMillis, row.attempts + 1, now);
    WaitedDoubles(baseMillis, row.attempts);
  }

  lemma WriteBacksOff(s: State, t: nat, now: int, accepted: bool, baseMillis: nat)
    requires Inv(s) && !s.cancelled && Enabled(s, Write(t, now, accepted)) && ClockHolds(s, Write(t, now, accepted))
    requires WholeMillis(s.settings, baseMillis) && BackedOff(s.table, baseMillis)
    ensures SoundJob(s.tasks[t].job, s.table.lastId)
    ensures BackedOff(Writing(s, t, now, accepted).table, baseMillis)
  {
    var k := s.tasks[t];
    assert SoundJob(k.job, s.table.lastId) && Held(s.table, k.job, Millis(s.claimedAt));
    var f := FateOf(s.settings, k.job, Seen(k, now, accepted));
    var n := Writing(s, t, now, accepted);
    if accepted && f.Retry? {
      RetryIsBackedOff(s.settings, baseMillis, s.table.rows[k.job.id], now, s.claimedAt);
    }
    forall id | id in n.table.rows && n.table.rows[id].attempts >= 0
      ensures n.table.rows[id].nextAttemptAt >= n.table.rows[id].createdAt + Waited(baseMillis, n.table.rows[id].attempts)
    {
      if id != k.job.id {
        SettleElsewhere(s.table, k.job.id, f, id);
      }
    }
  }

  lemma BackedOffStep(s: State, l: Label, baseMillis: nat)
    requires Inv(s) && !s.cancelled && Enabled(s, l) && Steady(l, s.settings) && ClockHolds(s, l)
    requires WholeMillis(s.settings, baseMillis) && BackedOff(s.table, baseMillis)
    ensures BackedOff(Next(s, l).table, baseMillis)
  {
    match l
    case Write(t, now, accepted) => WriteBacksOff(s, t, now, accepted, baseMillis);
    case _ =>
  }

  lemma {:induction false} BackedOffRun(s: State, ls: seq<Label>, baseMillis: nat)
    requires Inv(s) && !s.cancelled && Runnable(s, ls) && Punctual(s, ls)
    requires forall i :: 0 <= i < |ls| ==> Steady(ls[i], s.settings)
    requires WholeMillis(s.settings, baseMillis) && BackedOff(s.table, baseMillis)
    ensures BackedOff(After(s, ls).table, baseMillis)
    decreases ls
  {
    if ls != [] {
      InvStep(s, ls[0]);
      BackedOffStep(s, ls[0], baseMillis);
      BackedOffRun(Next(s, ls[0]), ls[1..], baseMillis);
    }
  }

  /**
   Attempt number k of a job is claimed no earlier than its arrival plus
   base * (2^(k-1) - 1) milliseconds.
   */
  lemma NeverEarly(settings: Settings, ls: seq<Label>, baseMillis: nat, now: int, jobs: seq<Job>, i: nat)
    requires settings.delivery.concurrency >= 1 && WholeMillis(settings, baseMillis)
    requires Runnable(Start(settings), ls) && Punctual(Start(settings), ls)
    requires forall i :: 0 <= i < |ls| ==> Steady(ls[i], settings)
    requires Enabled(After(Start(settings), ls), Claim(now, jobs)) && i < |jobs|
    ensures var q := After(Start(settings), ls).table;
      && jobs[i].id in q.rows && jobs[i].attempts >= 0
      && Millis(now) >= q.rows[jobs[i].id].createdAt + baseMillis * (Pow2(jobs[i].attempts) - 1)
  {
    InvStart(settings);
    InvRun(Start(settings), ls);
    BackedOffRun(Start(settings), ls, baseMillis);
    ClaimedInTime(After(Start(settings), ls).table, Millis(now), 4 * Cap(After(Start(settings), ls)), jobs, i, baseMillis);
  }

  lemma ClaimedInTime(q: Table, nowMillis: int, limit: int, jobs: seq<Job>, i: nat, baseMillis: nat)
    requires SoundTable(q) && BackedOff(q, baseMillis) && IsClaim(q, nowMillis, limit, jobs) && i < |jobs|
    ensures jobs[i].id in q.rows && jobs[i].attempts >= 0
    ensures nowMillis >= q.rows[jobs[i].id].createdAt + baseMillis * (Pow2(jobs[i].attempts) - 1)
  {
    assert Due(q, jobs[i].id, nowMillis);
  }
}
