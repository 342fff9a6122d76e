/**
 The queue worker as a step system: the draining loop, its job goroutines,
 concurrent enqueues and sync deliveries, refused writes, cancellation, and crash with restart.
 A step is determined by its label; whatever chance decides (HTTP replies,
 clock readings in nanoseconds, refusals, the order of ties) is in the label,
 so a run is a sequence of labels.
 */
module Worker {
  import opened Payloads
  import opened Backoff
  import opened Queue
  import opened Delivery

  /** How far one job goroutine has come. */
  datatype Stage =
    | Ready                 // spawned, nothing done
    | Replied(wire: Wire)   // HTTP exchange over
    | Noted(wire: Wire)     // delivery logged
    | Written               // queue write done or refused

  /** `drain` is the drain whose semaphore the goroutine holds; `claimedAt` that drain's clock reading. */
  datatype Task = Task(job: Job, drain: nat, claimedAt: int, stage: Stage)

  /** Where the draining loop stands. */
  datatype Phase =
    | Idle(left: nat)               // between ticks; `left` tokens remain in the last drain's channel
    | Acquiring(rest: seq<Job>)     // about to send a token for rest[0]
    | Holding(rest: seq<Job>)       // token sent, goroutine for rest[0] not yet started
    | Filling(filled: nat)          // in the barrier

  /** What an outside observer could have written down. */
  datatype Event =
    | Arrived(id: int, messageId: string, route: string, payload: Payload)
    | Called(job: Job, wire: Wire, under: Settings)  // an attempt, whether or not a request could be built
    | Dropped(job: Job, under: Settings)
    | Refused(failed: int)             // a queue write for this job failed
    | Crashed(hit: set<int>)           // jobs whose call was over but not yet written

  /**
   `results` keeps what the current drain's jobs have met so far, by job id, and
   `inline` what sessions have logged since the drain began.
   */
  datatype State = State(
    settings: Settings,
    table: Table,
    log: multiset<Record>,
    inline: multiset<Record>,
    phase: Phase,
    drain: nat,
    claimedAt: int,
    tokens: int,
    tasks: map<nat, Task>,
    nextTask: nat,
    cancelled: bool,
    results: map<int, Outcome>,
    trace: seq<Event>)

  datatype Label =
    | Arrive(messageId: string, route: string, payload: Payload, now: int, accepted: bool)
    | Inline(entry: Record, accepted: bool)  // a session logs a sync delivery
    | Claim(now: int, jobs: seq<Job>)
    | ClaimFails
    | Acquire
    | Spawn
    | Abandon
    | Reply(task: nat, wire: Wire)
    | Note(task: nat, accepted: bool)
    | Write(task: nat, now: int, accepted: bool)
    | Release(task: nat)
    | Fill
    | Cancel
    | Crash(restart: Settings)

  const NO_OUTCOME := Outcome(TransportError(""), false, 0, false)

  function Cap(s: State): int {
    s.settings.delivery.concurrency
  }

  function Waiting(p: Phase): seq<Job> {
    match p
    case Acquiring(rest) => rest
    case Holding(rest) => rest
    case _ => []
  }

  /** Where the loop goes with `rest` still to start. */
  function Continue(rest: seq<Job>): Phase {
    if rest == [] then Filling(0) else Acquiring(rest)
  }

  function Start(settings: Settings): State {
    State(settings, EMPTY, multiset{}, multiset{}, Idle(0), 0, 0, 0, map[], 0, false, map[], [])
  }

  predicate AtStage(s: State, t: nat, unroutable: bool) {
    t in s.tasks && (s.tasks[t].job.route !in s.settings.routes <==> unroutable)
  }

  ghost predicate Enabled(s: State, l: Label) {
    match l
    case Arrive(_, _, _, _, _) => true
    case Inline(_, _) => true
    case Claim(now, jobs) => s.phase.Idle? && IsClaim(s.table, Millis(now), 4 * Cap(s), jobs)
    case ClaimFails => s.phase.Idle?
    case Acquire => s.phase.Acquiring? && s.tokens < Cap(s)
    case Spawn => s.phase.Holding?
    case Abandon => s.phase.Acquiring? && s.cancelled
    case Reply(t, _) => AtStage(s, t, false) && s.tasks[t].stage.Ready?
    case Note(t, _) => t in s.tasks && s.tasks[t].stage.Replied?
    case Write(t, _, _) => t in s.tasks && (s.tasks[t].stage.Noted? || (s.tasks[t].stage.Ready? && AtStage(s, t, true)))
    case Release(t) => t in s.tasks && s.tasks[t].stage.Written?
    case Fill => s.phase.Filling? && s.tokens < Cap(s)
    case Cancel => true
    case Crash(restart) => restart.delivery.concurrency >= 1
  }

  function Advance(s: State, t: nat, stage: Stage): map<nat, Task>
    requires t in s.tasks
  {
    s.tasks[t := s.tasks[t].(stage := stage)]
  }

  function Known(s: State, id: int): Outcome {
    if id in s.results then s.results[id] else NO_OUTCOME
  }

  /** What a task has met once its queue write is decided. */
  function Final(s: State, t: nat, now: int, accepted: bool): Outcome
    requires t in s.tasks
  {
    Known(s, s.tasks[t].job.id).(now := now, accepted := accepted)
  }

  /** The outcome a task's own progress shows. */
  function Seen(k: Task, now: int, accepted: bool): Outcome {
    Outcome(if k.stage.Noted? then k.stage.wire else TransportError(""), false, now, accepted)
  }

  /** Jobs of goroutines that have called but not yet recorded it. */
  function Unrecorded(tasks: map<nat, Task>): set<int> {
    set t | t in tasks && (tasks[t].stage.Replied? || tasks[t].stage.Noted?) :: tasks[t].job.id
  }

  function Arriving(s: State, l: Label): State
    requires l.Arrive?
  {
    if l.accepted
    then s.(table := Inserted(s.table, l.messageId, l.route, l.payload, Millis(l.now)), trace := s.trace + [Arrived(s.table.lastId + 1, l.messageId, l.route, l.payload)])
    else s
  }

  function Inlining(s: State, entry: Record, accepted: bool): State {
    if s.settings.logContent && accepted
    then s.(log := s.log + multiset{entry}, inline := s.inline + multiset{entry})
    else s
  }

  function Replying(s: State, t: nat, wire: Wire): State
    requires t in s.tasks
  {
    var j := s.tasks[t].job;
    s.(tasks := Advance(s, t, Replied(wire)),
      results := s.results[j.id := Known(s, j.id).(wire := wire)],
      trace := s.trace + [Called(j, wire, s.settings)])
  }

  function Noting(s: State, t: nat, accepted: bool): State
    requires t in s.tasks && s.tasks[t].stage.Replied?
  {
    var k := s.tasks[t];
    s.(tasks := Advance(s, t, Noted(k.stage.wire)),
      results := s.results[k.job.id := Known(s, k.job.id).(logged := accepted)],
      log := if s.settings.logContent && accepted then s.log + multiset{RecordOf(k.job, k.stage.wire)} else s.log)
  }

  /** A job written while still ready is one dropped for want of its route. */
  function WriteEvents(s: State, k: Task, accepted: bool): seq<Event> {
    (if k.stage.Ready? then [Dropped(k.job, s.settings)] else []) + if accepted then [] else [Refused(k.job.id)]
  }

  function Writing(s: State, t: nat, now: int, accepted: bool): State
    requires t in s.tasks && s.tasks[t].job.attempts >= 0
  {
    var k := s.tasks[t];
    s.(tasks := Advance(s, t, Written),
      results := s.results[k.job.id := Final(s, t, now, accepted)],
      table := if accepted then Settle(s.table, k.job.id, FateOf(s.settings, k.job, Seen(k, now, accepted))) else s.table,
      trace := s.trace + WriteEvents(s, k, accepted))
  }

  function Releasing(s: State, t: nat): State
    requires t in s.tasks
  {
    s.(tasks := s.tasks - {t}, tokens := if s.tasks[t].drain == s.drain then s.tokens - 1 else s.tokens)
  }

  function Filled(s: State): State
    requires s.phase.Filling?
  {
    var n := s.phase.filled + 1;
    s.(tokens := s.tokens + 1, phase := if n >= Cap(s) then Idle(n) else Filling(n))
  }

  function Spawning(s: State): State
    requires s.phase.Holding? && s.phase.rest != []
  {
    s.(tasks := s.tasks[s.nextTask := Task(s.phase.rest[0], s.drain, s.claimedAt, Ready)],
      nextTask := s.nextTask + 1, phase := Continue(s.phase.rest[1..]))
  }

  function Claiming(s: State, now: int, jobs: seq<Job>): State {
    s.(phase := Continue(jobs), drain := s.drain + 1, claimedAt := now, tokens := 0, results := map[], inline := multiset{})
  }

  /** Tables and trace survive; everything in flight is gone. */
  function Restarting(s: State, restart: Settings): State {
    s.(settings := restart, phase := Idle(0), drain := s.drain + 1, tokens := 0, tasks := map[], cancelled := false,
      results := map[], trace := s.trace + [Crashed(Unrecorded(s.tasks))])
  }

  predicate SoundTable(q: Table) {
    q.lastId >= 0 && forall id :: id in q.rows ==> 1 <= id <= q.lastId && q.rows[id].attempts >= 0
  }

  predicate SoundJob(j: Job, lastId: int) {
    1 <= j.id <= lastId && j.attempts >= 0
  }

  predicate SoundTasks(tasks: map<nat, Task>, lastId: int) {
    forall t :: t in tasks ==> SoundJob(tasks[t].job, lastId)
  }

  predicate SoundJobs(jobs: seq<Job>, lastId: int) {
    forall i :: 0 <= i < |jobs| ==> SoundJob(jobs[i], lastId)
  }

  predicate SoundPhase(p: Phase, lastId: int) {
    && (p.Acquiring? || p.Holding? ==> p.rest != [])
    && SoundJobs(Waiting(p), lastId)
  }

  /** Shape facts without which some steps would make no sense; every reachable state has them. */
  predicate Sound(s: State) {
    SoundTable(s.table) && SoundTasks(s.tasks, s.table.lastId) && SoundPhase(s.phase, s.table.lastId)
  }

  function Next(s: State, l: Label): State
    requires Sound(s) && Enabled(s, l)
  {
    match l
    case Arrive(_, _, _, _, _) => Arriving(s, l)
    case Inline(entry, accepted) => Inlining(s, entry, accepted)
    case Claim(now, jobs) => Claiming(s, now, jobs)
    case ClaimFails => s
    case Acquire => s.(tokens := s.tokens + 1, phase := Holding(s.phase.rest))
    case Spawn => Spawning(s)
    case Abandon => s.(phase := Idle(0))
    case Reply(t, wire) => Replying(s, t, wire)
    case Note(t, accepted) => Noting(s, t, accepted)
    case Write(t, now, accepted) => Writing(s, t, now, accepted)
    case Release(t) => Releasing(s, t)
    case Fill => Filled(s)
    case Cancel => s.(cancelled := true)
    case Crash(restart) => Restarting(s, restart)
  }

  // --- soundness and token accounting, in every state ---

  function Current(s: State): set<nat> {
    set t | t in s.tasks && s.tasks[t].drain == s.drain
  }

  /** Tokens in the channel that no running goroutine will take out again. */
  function Extra(p: Phase): nat {
    match p
    case Idle(left) => left
    case Holding(_) => 1
    case Filling(n) => n
    case Acquiring(_) => 0
  }

  /** The semaphore holds one token per running goroutine of its drain, plus the loop's own. */
  ghost predicate Accounted(s: State) {
    && Cap(s) >= 1
    && s.tokens == |Current(s)| + Extra(s.phase) <= Cap(s)
    && (s.phase.Filling? ==> s.phase.filled < Cap(s))
    && (forall t :: t in s.tasks ==> t < s.nextTask && s.tasks[t].drain <= s.drain)
  }

  lemma SoundContinue(rest: seq<Job>, lastId: int)
    requires SoundJobs(rest, lastId)
    ensures SoundPhase(Continue(rest), lastId)
  {
  }

  lemma SoundSpawn(s: State)
    requires Sound(s) && s.phase.Holding?
    ensures Sound(Spawning(s))
  {
    var rest := s.phase.rest;
    assert Waiting(s.phase) == rest;
    assert forall i :: 0 <= i < |rest[1..]| ==> rest[1..][i] == rest[i + 1];
    SoundContinue(rest[1..], s.table.lastId);
  }

  lemma SoundClaim(s: State, now: int, limit: int, jobs: seq<Job>)
    requires Sound(s) && IsClaim(s.table, now, limit, jobs)
    ensures SoundPhase(Continue(jobs), s.table.lastId)
  {
    forall i | 0 <= i < |jobs|
      ensures SoundJob(jobs[i], s.table.lastId)
    {
      assert Due(s.table, jobs[i].id, now);
    }
    SoundContinue(jobs, s.table.lastId);
  }

  lemma SoundSettle(q: Table, id: int, f: Fate)
    requires SoundTable(q) && (f.Retry? ==> f.attempts >= 0)
    ensures SoundTable(Settle(q, id, f)) && Settle(q, id, f).lastId == q.lastId
  {
  }

  lemma SoundArrive(s: State, l: Label)
    requires Sound(s) && l.Arrive?
    ensures Sound(Arriving(s, l))
  {
    var n := Arriving(s, l);
    assert SoundJobs(Waiting(s.phase), n.table.lastId);
    assert forall t :: t in s.tasks ==> SoundJob(s.tasks[t].job, s.table.lastId);
    assert SoundTasks(n.tasks, n.table.lastId);
  }

  lemma SoundStep(s: State, l: Label)
    requires Sound(s) && Enabled(s, l)
    ensures Sound(Next(s, l))
  {
    match l
    case Arrive(_, _, _, _, _) => SoundArrive(s, l);
    case Claim(now, jobs) => SoundClaim(s, Millis(now), 4 * Cap(s), jobs);
    case Spawn => SoundSpawn(s);
    case Write(t, now, accepted) =>
      var k := s.tasks[t];
      assert SoundJob(k.job, s.table.lastId);
      SoundSettle(s.table, k.job.id, FateOf(s.settings, k.job, Seen(k, now, accepted)));
    case _ =>
  }

  /** Moving a task on does not change whose token it holds. */
  lemma AccountedAdvance(s: State, n: State, t: nat, stage: Stage)
    requires Accounted(s) && t in s.tasks && n.tasks == Advance(s, t, stage)
    requires n.settings == s.settings && n.drain == s.drain && n.phase == s.phase && n.tokens == s.tokens && n.nextTask == s.nextTask
    ensures Accounted(n)
  {
    assert Current(n) == Current(s);
  }

  /** A new drain's channel is new: it holds no token yet. */
  lemma AccountedAnew(s: State, n: State)
    requires Accounted(s) && Cap(n) >= 1 && n.drain == s.drain + 1 && n.tokens == 0 && n.nextTask == s.nextTask
    requires n.tasks == s.tasks || n.tasks == map[]
    requires Extra(n.phase) == 0
    ensures Accounted(n)
  {
    assert Current(n) == {};
  }

  /** The loop's own steps take and keep tokens. */
  lemma AccountedLoop(s: State, n: State)
    requires Accounted(s) && n.tasks == s.tasks && n.settings == s.settings && n.drain == s.drain && n.nextTask == s.nextTask
    requires n.tokens - s.tokens == Extra(n.phase) - Extra(s.phase) && n.tokens <= Cap(s)
    requires n.phase.Filling? ==> n.phase.filled < Cap(s)
    ensures Accounted(n)
  {
    assert Current(n) == Current(s);
  }

  lemma AccountedTask(s: State, l: Label)
    requires Sound(s) && Accounted(s) && Enabled(s, l) && (l.Reply? || l.Note? || l.Write?)
    ensures Accounted(Next(s, l))
  {
    var n := Next(s, l);
    match l
    case Reply(t, wire) => AccountedAdvance(s, n, t, Replied(wire));
    case Note(t, _) => AccountedAdvance(s, n, t, Noted(s.tasks[t].stage.wire));
    case Write(t, _, _) => AccountedAdvance(s, n, t, Written);
  }

  lemma AccountedTokens(s: State, l: Label)
    requires Sound(s) && Accounted(s) && Enabled(s, l) && (l.Acquire? || l.Abandon? || l.Fill?)
    ensures Accounted(Next(s, l))
  {
    AccountedLoop(s, Next(s, l));
  }

  /** The loop has no part in these. */
  lemma AccountedAside(s: State, l: Label)
    requires Sound(s) && Accounted(s) && Enabled(s, l) && (l.Arrive? || l.Inline? || l.ClaimFails? || l.Cancel?)
    ensures Accounted(Next(s, l))
  {
    assert Current(Next(s, l)) == Current(s);
  }

  lemma AccountedStep(s: State, l: Label)
    requires Sound(s) && Accounted(s) && Enabled(s, l)
    ensures Accounted(Next(s, l))
  {
    match l
    case Claim(_, _) => AccountedAnew(s, Next(s, l));
    case Crash(_) => AccountedAnew(s, Next(s, l));
    case Reply(_, _) => AccountedTask(s, l);
    case Note(_, _) => AccountedTask(s, l);
    case Write(_, _, _) => AccountedTask(s, l);
    case Spawn => AccountedSpawn(s);
    case Release(t) => AccountedRelease(s, t);
    case Acquire => AccountedTokens(s, l);
    case Abandon => AccountedTokens(s, l);
    case Fill => AccountedTokens(s, l);
    case _ => AccountedAside(s, l);
  }

  lemma AccountedSpawn(s: State)
    requires Sound(s) && Accounted(s) && s.phase.Holding?
    ensures Accounted(Spawning(s))
  {
    assert s.nextTask !in s.tasks;
    assert Current(Spawning(s)) == Current(s) + {s.nextTask};
  }

  lemma AccountedRelease(s: State, t: nat)
    requires Sound(s) && Accounted(s) && t in s.tasks
    ensures Accounted(Releasing(s, t))
  {
    assert Current(Releasing(s, t)) == Current(s) - {t};
  }
}
