/** Why mutual exclusion needs its condition: for every concurrency a run that leaves a drain behind and breaks it. */
module Cancellation {
  import opened Payloads
  import opened Backoff
  import opened Queue
  import opened Delivery
  import opened Worker
  import opened Exclusion

  /** The run `ls` is possible from `s` and ends in `n`. */
  ghost predicate Leads(s: State, ls: seq<Label>, n: State) {
    Sound(s) && Runnable(s, ls) && After(s, ls) == n && Sound(n)
  }

  lemma {:induction false} LeadsStep(s: State, l: Label)
    requires Sound(s) && Enabled(s, l)
    ensures Leads(s, [l], Next(s, l))
  {
    SoundStep(s, l);
    assert [l][1..] == [];
  }

  lemma {:induction false} LeadsThen(s: State, a: seq<Label>, n: State, b: seq<Label>, m: State)
    requires Leads(s, a, n) && Leads(n, b, m)
    ensures Leads(s, a + b, m)
    decreases a
  {
    if a == [] {
      assert a + b == b;
    } else {
      SoundStep(s, a[0]);
      LeadsThen(Next(s, a[0]), a[1..], n, b, m);
      assert (a + b)[1..] == a[1..] + b;
    }
  }

  lemma {:induction false} LeadsTwo(s: State, a: Label, b: Label)
    requires Sound(s) && Enabled(s, a) && Sound(Next(s, a)) && Enabled(Next(s, a), b)
    ensures Leads(s, [a] + [b], Next(Next(s, a), b))
  {
    LeadsStep(s, a);
    LeadsStep(Next(s, a), b);
    LeadsThen(s, [a], Next(s, a), [b], Next(Next(s, a), b));
  }

  /** `n` queued jobs of the same kind, due at time 0. */
  function Full(p: Payload, n: nat): (q: Table)
    ensures q.lastId == n && forall id :: id in q.rows <==> 1 <= id <= n
    ensures forall id :: id in q.rows ==> q.rows[id] == Row("m", "r", p, 0, 0, 0)
  {
    if n == 0 then EMPTY else Inserted(Full(p, n - 1), "m", "r", p, Millis(0))
  }

  function Batch(p: Payload, n: nat): (r: seq<Job>)
    ensures |r| == n && forall i :: 0 <= i < n ==> r[i] == Job(i + 1, "m", "r", p, 0)
  {
    seq(n, (i: nat) => Job(i + 1, "m", "r", p, 0))
  }

  lemma AllClaimed(p: Payload, n: nat, limit: int)
    requires n <= limit
    ensures IsClaim(Full(p, n), Millis(0), limit, Batch(p, n))
  {
    var q, jobs := Full(p, n), Batch(p, n);
    forall id | Due(q, id, Millis(0))
      ensures Taken(jobs, id)
    {
      assert jobs[id - 1].id == id;
    }
  }

  /** Between ticks, with `n` due jobs queued. */
  predicate Loaded(s: State, settings: Settings, p: Payload, n: nat) {
    s.settings == settings && s.table == Full(p, n) && s.phase.Idle? && Sound(s)
  }

  lemma {:induction false} Load(settings: Settings, p: Payload, n: nat) returns (ls: seq<Label>, s: State)
    ensures Leads(Start(settings), ls, s) && Loaded(s, settings, p, n) && s.tasks == map[] && s.nextTask == 0
  {
    if n == 0 {
      ls, s := [], Start(settings);
    } else {
      var before, mid := Load(settings, p, n - 1);
      var l := Arrive("m", "r", p, 0, true);
      LeadsStep(mid, l);
      LeadsThen(Start(settings), before, mid, [l], Next(mid, l));
      ls, s := before + [l], Next(mid, l);
    }
  }

  /** The first `k` jobs of the batch run as goroutines 0 to k-1; the others wait. */
  ghost predicate Running(s: State, settings: Settings, p: Payload, n: nat, k: nat)
    requires k <= n
  {
    && s.settings == settings && s.table == Full(p, n) && s.phase == Acquiring(Batch(p, n)[k..])
    && s.tokens == k && s.nextTask == k && Sound(s)
    && (forall t: nat :: t in s.tasks <==> t < k)
    && (forall t :: t in s.tasks ==> s.tasks[t].job.id == t + 1)
  }

  /** One more goroutine while there are tokens. */
  lemma {:induction false} StartOne(s: State, settings: Settings, p: Payload, n: nat, k: nat) returns (ls: seq<Label>, m: State)
    requires k + 1 < n && Running(s, settings, p, n, k) && k < settings.delivery.concurrency
    ensures Leads(s, ls, m) && Running(m, settings, p, n, k + 1)
  {
    SoundStep(s, Acquire);
    var held := Next(s, Acquire);
    SoundStep(held, Spawn);
    m := Next(held, Spawn);
    LeadsTwo(s, Acquire, Spawn);
    ls := [Acquire] + [Spawn];
    var rest := Batch(p, n)[k..];
    assert rest[0].id == k + 1 && rest[1..] == Batch(p, n)[k + 1..];
  }

  /** All tokens are taken and one job still waits. */
  lemma {:induction false} StartMany(s: State, settings: Settings, p: Payload, n: nat, k: nat) returns (ls: seq<Label>, m: State)
    requires n == settings.delivery.concurrency + 1 && k < n && Running(s, settings, p, n, k)
    ensures Leads(s, ls, m) && Running(m, settings, p, n, n - 1)
    decreases n - k
  {
    if k == n - 1 {
      ls, m := [], s;
    } else {
      var first, mid := StartOne(s, settings, p, n, k);
      var later, end := StartMany(mid, settings, p, n, k + 1);
      LeadsThen(s, first, mid, later, end);
      ls, m := first + later, end;
    }
  }

  /** A tick finds every job due. */
  lemma {:induction false} Tick(s: State, settings: Settings, p: Payload, n: nat) returns (l: Label, m: State)
    requires 0 < n <= 4 * settings.delivery.concurrency && Loaded(s, settings, p, n)
    ensures Leads(s, [l], m) && m == Claiming(s, 0, Batch(p, n))
  {
    AllClaimed(p, n, 4 * settings.delivery.concurrency);
    l, m := Claim(0, Batch(p, n)), Claiming(s, 0, Batch(p, n));
    LeadsStep(s, l);
  }

  /** Cancelled while waiting for a token, the loop gives up with its goroutines at work. */
  lemma {:induction false} GiveUp(s: State, settings: Settings, p: Payload, n: nat, k: nat) returns (ls: seq<Label>, m: State)
    requires 0 < k <= n && Running(s, settings, p, n, k)
    ensures Leads(s, ls, m) && Loaded(m, settings, p, n) && m.tasks == s.tasks && m.nextTask == s.nextTask
    ensures LeavesBehind(Next(s, Cancel), Abandon)
  {
    SoundStep(s, Cancel);
    assert 0 in s.tasks;
    LeadsTwo(s, Cancel, Abandon);
    ls, m := [Cancel] + [Abandon], Next(Next(s, Cancel), Abandon);
  }

  /** The next tick starts the first job again, beside the goroutines left behind. */
  lemma {:induction false} StartAgain(s: State, settings: Settings, p: Payload, n: nat) returns (ls: seq<Label>, m: State)
    requires 0 < n <= 4 * settings.delivery.concurrency && Loaded(s, settings, p, n)
    ensures Leads(s, ls, m) && m.settings == settings && m.nextTask == s.nextTask + 1
    ensures m.tasks == s.tasks[s.nextTask := Task(Batch(p, n)[0], s.drain + 1, 0, Ready)]
  {
    var l, claimed := Tick(s, settings, p, n);
    m := Spawning(claimed.(tokens := 1, phase := Holding(Batch(p, n))));
    StartFirst(claimed, m);
    LeadsThen(s, [l], claimed, [Acquire] + [Spawn], m);
    ls := [l] + ([Acquire] + [Spawn]);
  }

  lemma {:induction false} StartFirst(s: State, m: State)
    requires Sound(s) && s.phase.Acquiring? && s.tokens == 0 && Cap(s) >= 1
    requires m == Spawning(s.(tokens := 1, phase := Holding(s.phase.rest)))
    ensures Leads(s, [Acquire] + [Spawn], m)
  {
    SoundStep(s, Acquire);
    LeadsTwo(s, Acquire, Spawn);
  }

  function Below(n: nat): (r: set<nat>)
    ensures |r| == n && forall t: nat :: t in r <==> t < n
  {
    if n == 0 then {} else Below(n - 1) + {n - 1}
  }

  /** One job in two goroutines. */
  predicate Twice(s: State, t: nat, u: nat) {
    t in s.tasks && u in s.tasks && t != u && s.tasks[t].job.id == s.tasks[u].job.id
  }

  /**
   For every concurrency there is a run in which the context is cancelled while the
   loop waits for a token, the drain is abandoned, and a further tick claims and
   starts a job that is still running: one job in two goroutines, and more
   goroutines than the limit.
   */
  lemma {:induction false} CancellationBreaksExclusion(settings: Settings, p: Payload) returns (ls: seq<Label>)
    requires settings.delivery.concurrency >= 1
    ensures Runnable(Start(settings), ls)
    ensures var s := After(Start(settings), ls);
      |s.tasks| > Cap(s) && exists t, u :: Twice(s, t, u)
  {
    var n := settings.delivery.concurrency + 1;
    var l1, s1 := Load(settings, p, n);
    var l2, s2 := Abandoned(s1, settings, p, n);
    var l3, s3 := StartAgain(s2, settings, p, n);
    LeadsThen(s1, l2, s2, l3, s3);
    LeadsThen(Start(settings), l1, s1, l2 + l3, s3);
    ls := l1 + (l2 + l3);
    assert Twice(s3, 0, n - 1);
    assert s3.tasks.Keys == Below(n);
    assert |s3.tasks| == |s3.tasks.Keys|;
  }

  /** A tick, as many goroutines as there are tokens, and the drain left behind. */
  lemma {:induction false} Abandoned(s: State, settings: Settings, p: Payload, n: nat) returns (ls: seq<Label>, m: State)
    requires n == settings.delivery.concurrency + 1 >= 2 && Loaded(s, settings, p, n) && s.tasks == map[] && s.nextTask == 0
    ensures Leads(s, ls, m) && Loaded(m, settings, p, n) && m.nextTask == n - 1
    ensures (forall t: nat :: t in m.tasks <==> t < n - 1) && (forall t :: t in m.tasks ==> m.tasks[t].job.id == t + 1)
  {
    var l, claimed := Tick(s, settings, p, n);
    assert Batch(p, n)[0..] == Batch(p, n);
    var many, full := StartMany(claimed, settings, p, n, 0);
    var quit, left := GiveUp(full, settings, p, n, n - 1);
    LeadsThen(claimed, many, full, quit, left);
    LeadsThen(s, [l], claimed, many + quit, left);
    ls, m := [l] + (many + quit), left;
  }
}
